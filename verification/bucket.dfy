/** The growable bucket in which the output API keeps its channels: an array of slots, of which the
    first `used` are meant to hold the items and the rest to be NULL.
 */
module Bucket {
  import opened ChannelTable

  /** The first slot from `from` on that holds `x`; the number of slots if there is none. */
  function FirstSlot<T(==)>(slots: seq<Option<T>>, x: Option<T>, from: nat): (i: nat)
    requires from <= |slots|
    ensures from <= i <= |slots|
    ensures i < |slots| ==> slots[i] == x
    ensures forall j | from <= j < i :: slots[j] != x
    decreases |slots| - from
  {
    if from == |slots| || slots[from] == x then from else FirstSlot(slots, x, from + 1)
  }

  /** What a removal makes of the slots when it finds its item in slot `i`: the later slots move
      down.  The last slot is emptied only when it is the one the item was in. */
  function Removed<T>(slots: seq<Option<T>>, i: nat): (r: seq<Option<T>>)
    requires i < |slots|
    ensures |r| == |slots|
    ensures forall j | 0 <= j < |slots| - 1 :: r[j] == slots[if j < i then j else j + 1]
    ensures r[|slots| - 1] == if i == |slots| - 1 then None else slots[|slots| - 1]
  {
    var last := |slots| - 1;
    if i == last then slots[i := None] else slots[..i] + slots[i + 1..] + [slots[last]]
  }

  // ---- the bucket as a list ----------------------------------------------------------------------

  /** The first `used` slots hold items. */
  ghost predicate Packed<T>(slots: seq<Option<T>>, used: int) {
    && 0 <= used <= |slots|
    && forall i | 0 <= i < used :: slots[i].Some?
  }

  /** ... and the rest are NULL. */
  ghost predicate Tidy<T>(slots: seq<Option<T>>, used: int) {
    && Packed(slots, used)
    && forall i | used <= i < |slots| :: slots[i].None?
  }

  /** The list the bucket stands for, as bucket_lock hands it out. */
  ghost function Listed<T>(slots: seq<Option<T>>, used: int): (r: seq<T>)
    requires Packed(slots, used)
    ensures |r| == used
    ensures forall i | 0 <= i < used :: r[i] == slots[i].value
  {
    seq(used, i requires 0 <= i < used => slots[i].value)
  }

  /** In a tidy bucket the first free slot is the one after the items: adding appends. */
  lemma AddAppends<T>(slots: seq<Option<T>>, used: nat, x: T)
    requires Tidy(slots, used) && used < |slots|
    ensures FirstSlot(slots, None, 0) == used
    ensures Tidy(slots[used := Some(x)], used + 1)
    ensures Listed(slots[used := Some(x)], used + 1) == Listed(slots, used) + [x]
  {
    assert slots[used] == None;
    assert forall i | 0 <= i < used :: slots[i] != None;
    var slots' := slots[used := Some(x)];
    assert forall i | 0 <= i < used :: slots'[i] == slots[i];
    assert Packed(slots', used + 1);
  }

  /** A full bucket grows by four slots: adding appends and leaves three to spare. */
  lemma GrowAppends<T>(slots: seq<Option<T>>, x: T)
    requires Packed(slots, |slots|)
    ensures var slots' := slots + [Some(x), None, None, None];
            && Tidy(slots', |slots| + 1)
            && Listed(slots', |slots| + 1) == Listed(slots, |slots|) + [x]
  {
  }

  /** The item in slot `i` of the list is the one that leaves it. */
  lemma RemovedFromList<T>(slots: seq<Option<T>>, used: nat, i: nat)
    requires Packed(slots, used) && i < used
    ensures Packed(Removed(slots, i), used - 1)
    ensures Listed(Removed(slots, i), used - 1) == Listed(slots, used)[..i] + Listed(slots, used)[i + 1..]
  {
    var slots', list := Removed(slots, i), Listed(slots, used);
    assert forall j | 0 <= j < used - 1 :: slots'[j] == slots[if j < i then j else j + 1];
    assert Packed(slots', used - 1);
    var list' := Listed(slots', used - 1);
    forall j | 0 <= j < used - 1
      ensures list'[j] == (list[..i] + list[i + 1..])[j]
    {
    }
  }

  /** An item of the list is found in the list, at its first occurrence. */
  lemma FoundInList<T>(slots: seq<Option<T>>, used: nat, x: T)
    requires Packed(slots, used)
    ensures var i := FirstSlot(slots, Some(x), 0);
            if x in Listed(slots, used)
            then i < used && Listed(slots, used)[i] == x && x !in Listed(slots, used)[..i]
            else used <= i
  {
    var i, list := FirstSlot(slots, Some(x), 0), Listed(slots, used);
    if i < used {
      assert list[i] == x;
    }
    if x in list {
      var k :| 0 <= k < used && list[k] == x;
      assert slots[k] == Some(x);
    }
  }

  /** Removing an item of the list deletes its first occurrence and keeps the order of the rest.
      The tail stays NULL exactly when the bucket was not full or the item was in its last slot. */
  lemma RemoveDeletes<T>(slots: seq<Option<T>>, used: nat, x: T)
    requires Tidy(slots, used)
    requires x in Listed(slots, used)
    ensures var i, list := FirstSlot(slots, Some(x), 0), Listed(slots, used);
            && i < used && list[i] == x && x !in list[..i]
            && Packed(Removed(slots, i), used - 1)
            && Listed(Removed(slots, i), used - 1) == list[..i] + list[i + 1..]
            && (Tidy(Removed(slots, i), used - 1) <==> used < |slots| || i == |slots| - 1)
  {
    FoundInList(slots, used, x);
    var i := FirstSlot(slots, Some(x), 0);
    RemovedFromList(slots, used, i);
    TailAfterRemoval(slots, used, i);
  }

  lemma TailAfterRemoval<T>(slots: seq<Option<T>>, used: nat, i: nat)
    requires Tidy(slots, used) && i < used
    ensures Tidy(Removed(slots, i), used - 1) <==> used < |slots| || i == |slots| - 1
  {
    var slots', last := Removed(slots, i), |slots| - 1;
    assert forall j | 0 <= j < last :: slots'[j] == slots[if j < i then j else j + 1];
    if used == |slots| && i != last {
      assert slots'[last] == slots[last];
    } else {
      assert slots'[last].None?;
    }
  }

  /** Whatever the tail holds, a removal acts on the list as removal from a list exactly when the
      item is in the list or in no slot at all.  An item that only the tail still holds is "found"
      there: success is reported and the list loses its last item. */
  lemma RemoveActsAsList<T>(slots: seq<Option<T>>, used: nat, x: T)
    requires Packed(slots, used)
    ensures var i, list := FirstSlot(slots, Some(x), 0), Listed(slots, used);
            (if i < |slots|
             then
               && x in list && i < used && Packed(Removed(slots, i), used - 1)
               && Listed(Removed(slots, i), used - 1) == list[..i] + list[i + 1..]
             else x !in list)
            <==> (x in list || Some(x) !in slots)
  {
    FoundInList(slots, used, x);
    var i := FirstSlot(slots, Some(x), 0);
    if i < used {
      RemovedFromList(slots, used, i);
    } else if i < |slots| {
      assert Some(x) in slots;
    }
  }

  /** Removing anything but the last item of a full bucket fills the tail with a stale copy.  The
      bucket then counts a free slot that no later addition can find. */
  lemma FullRemovalBlocksAdd<T>(slots: seq<Option<T>>, i: nat)
    requires Packed(slots, |slots|) && i < |slots| - 1
    ensures Packed(Removed(slots, i), |slots| - 1)
    ensures FirstSlot(Removed(slots, i), None, 0) == |slots|
  {
  }

  // ---- the object --------------------------------------------------------------------------------

  class Bucket<T(==)> {
    var locked: int
    var items: array<Option<T>>
    var nOutputs: int
    var nOutputsFree: int
    var nOutputsUsed: int

    ghost predicate Valid()
      reads this`items, this`nOutputs, this`nOutputsFree, this`nOutputsUsed
    {
      && items.Length == nOutputs
      && nOutputsUsed + nOutputsFree == nOutputs
    }

    constructor ()
      ensures Valid() && locked == 0 && nOutputs == 0 && nOutputsUsed == 0
      ensures fresh(items)
    {
      locked := 0;
      items := new Option<T>[0];
      nOutputs, nOutputsFree, nOutputsUsed := 0, 0, 0;
    }

    method Lock() returns (e: int)
      modifies this`locked
      ensures e == if old(locked) == 0 then 0 else -1
      ensures locked == if e == 0 then 1 else old(locked)
    {
      if locked != 0 {
        return -1;
      }
      locked := locked + 1;
      return 0;
    }

    method Unlock() returns (e: int)
      modifies this`locked
      ensures e == if old(locked) == 1 then 0 else -1
      ensures locked == if e == 0 then 0 else old(locked)
    {
      if locked != 1 {
        return -1;
      }
      locked := locked - 1;
      return 0;
    }

    method AddFrom(data: T, startSearch: nat) returns (e: int)
      requires Valid() && startSearch <= nOutputs
      modifies this`nOutputsFree, this`nOutputsUsed, items
      ensures Valid()
      ensures var i := FirstSlot(old(items[..]), None, startSearch);
              if i < nOutputs
              then e == 0 && items[..] == old(items[..])[i := Some(data)] && nOutputsUsed == old(nOutputsUsed) + 1
              else e == -1 && items[..] == old(items[..]) && nOutputsUsed == old(nOutputsUsed)
    {
      var i := startSearch;
      while i < nOutputs
        invariant startSearch <= i <= nOutputs
        invariant FirstSlot(items[..], None, startSearch) == FirstSlot(items[..], None, i)
        invariant items[..] == old(items[..])
      {
        if items[i].None? {
          items[i] := Some(data);
          nOutputsFree := nOutputsFree - 1;
          nOutputsUsed := nOutputsUsed + 1;
          return 0;
        }
        i := i + 1;
      }
      return -1;
    }

    /** The array is reallocated with room for the extra slots. */
    method GrowAndAdd(data: T, extra: nat) returns (e: int)
      requires Valid() && 0 < extra
      modifies this`items, this`nOutputs, this`nOutputsFree, this`nOutputsUsed
      ensures Valid() && fresh(items)
      ensures e == 0
      ensures items[..] == old(items[..]) + [Some(data)] + seq(extra - 1, _ => None)
      ensures nOutputs == old(nOutputs) + extra && nOutputsUsed == old(nOutputsUsed) + 1
    {
      var grown := new Option<T>[nOutputs + extra](_ => None);
      for i := 0 to nOutputs
        invariant forall j | 0 <= j < i :: grown[j] == items[j]
        invariant forall j | i <= j < grown.Length :: grown[j] == None
        modifies grown
      {
        grown[i] := items[i];
      }
      items := grown;
      nOutputs := nOutputs + extra;
      nOutputsFree := nOutputsFree + extra;
      e := AddFrom(data, nOutputs - extra);
    }

    method Add(data: Option<T>) returns (e: int)
      requires Valid()
      modifies this, items
      ensures Valid() && locked == old(locked)
      ensures items == old(items) || fresh(items)
      ensures data.None? || old(locked) != 0 ==>
                e == -1 && items == old(items) && items[..] == old(items[..]) && nOutputsUsed == old(nOutputsUsed)
      ensures data.Some? && old(locked) == 0 && old(nOutputsFree) != 0 ==>
                && items == old(items)
                && var i := FirstSlot(old(items[..]), None, 0);
                   if i < nOutputs
                   then e == 0 && items[..] == old(items[..])[i := data] && nOutputsUsed == old(nOutputsUsed) + 1
                   else e == -1 && items[..] == old(items[..]) && nOutputsUsed == old(nOutputsUsed)
      ensures data.Some? && old(locked) == 0 && old(nOutputsFree) == 0 ==>
                && e == 0
                && items[..] == old(items[..]) + [data, None, None, None]
                && nOutputsUsed == old(nOutputsUsed) + 1
    {
      e := -1;
      if data.Some? {
        var l := Lock();
        if l == 0 {
          if nOutputsFree != 0 {
            e := AddFrom(data.value, 0);
          } else {
            e := GrowAndAdd(data.value, 4);
          }
          var _ := Unlock();
        }
      }
    }

    method Remove(data: Option<T>) returns (e: int)
      requires Valid()
      modifies this`locked, this`nOutputsFree, this`nOutputsUsed, items
      ensures Valid() && locked == old(locked)
      ensures var i := FirstSlot(old(items[..]), data, 0);
              if data.Some? && old(locked) == 0 && i < nOutputs
              then e == 0 && items[..] == Removed(old(items[..]), i) && nOutputsUsed == old(nOutputsUsed) - 1
              else e == -1 && items[..] == old(items[..]) && nOutputsUsed == old(nOutputsUsed)
    {
      e := -1;
      if data.Some? {
        var l := Lock();
        if l == 0 {
          var i := 0;
          while i < nOutputs
            invariant 0 <= i <= nOutputs
            invariant FirstSlot(items[..], data, 0) == FirstSlot(items[..], data, i)
            invariant items[..] == old(items[..])
          {
            if items[i] == data {
              Shift(i);
              nOutputsFree := nOutputsFree + 1;
              nOutputsUsed := nOutputsUsed - 1;
              e := 0;
              break;
            }
            i := i + 1;
          }
          var _ := Unlock();
        }
      }
    }

    /** Empty slot `i` and move the later slots down. */
    method Shift(i: nat)
      requires Valid() && i < nOutputs
      modifies items
      ensures items[..] == Removed(old(items[..]), i)
    {
      ghost var was := items[..];
      items[i] := None;
      var k := i;
      while k < nOutputs - 1
        invariant i <= k <= nOutputs - 1
        invariant forall j {:trigger items[j]} | i <= j < k :: items[j] == was[j + 1]
        invariant forall j | 0 <= j < i || k < j < nOutputs :: items[j] == was[j]
        invariant items[k] == if k == i then None else was[k]
      {
        items[k] := items[k + 1];
        k := k + 1;
      }
      assert forall j | 0 <= j < nOutputs :: items[..][j] == Removed(was, i)[j];
    }

    method Reset() returns (e: int)
      requires Valid() && nOutputsUsed <= nOutputs
      modifies this`locked, this`nOutputsFree, this`nOutputsUsed, items
      ensures Valid() && locked == old(locked)
      ensures old(locked) != 0 ==> e == -1 && items[..] == old(items[..]) && nOutputsUsed == old(nOutputsUsed)
      ensures old(locked) == 0 ==>
                && e == 0 && nOutputsUsed == 0
                && forall i | 0 <= i < nOutputs ::
                     items[i] == if i < old(nOutputsUsed) then None else old(items[i])
    {
      e := -1;
      var l := Lock();
      if l == 0 {
        var i := 0;
        while i < nOutputsUsed
          invariant 0 <= i <= nOutputs && (i == 0 || i <= nOutputsUsed)
          invariant forall j | 0 <= j < nOutputs :: items[j] == if j < i then None else old(items[j])
          modifies items
        {
          items[i] := None;
          i := i + 1;
        }
        nOutputsFree := nOutputs;
        nOutputsUsed := 0;
        e := 0;
        var _ := Unlock();
      }
    }

    /** bucket_lock: lock the bucket and expose its items. */
    method LockItems() returns (e: int, list: array<Option<T>>, length: int)
      modifies this`locked
      ensures e == if old(locked) == 0 then 0 else -1
      ensures locked == if e == 0 then 1 else old(locked)
      ensures e == 0 ==> list == items && length == nOutputsUsed
    {
      e := Lock();
      list, length := items, nOutputsUsed;
    }
  }
}

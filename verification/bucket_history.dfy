/** A bucket over its history of additions, removals and resets: exactly when it stands for a list. */
module BucketHistory {
  import opened ChannelTable
  import opened Counting
  import opened Bucket

  datatype Op<T> = Add(x: T) | Remove(x: T) | Reset

  /** The slots of a bucket and how many it counts as used. */
  datatype Contents<T> = Contents(slots: seq<Option<T>>, used: int)

  function EmptyBucket<T>(): Contents<T> {
    Contents([], 0)
  }

  function Apply<T(==)>(c: Contents<T>, op: Op<T>): Contents<T> {
    match op
    case Add(x) =>
      if c.used == |c.slots| then Contents(c.slots + [Some(x), None, None, None], c.used + 1)
      else
        var i := FirstSlot(c.slots, None, 0);
        if i < |c.slots| then Contents(c.slots[i := Some(x)], c.used + 1) else c
    case Remove(x) =>
      var i := FirstSlot(c.slots, Some(x), 0);
      if i < |c.slots| then Contents(Removed(c.slots, i), c.used - 1) else c
    case Reset => Contents(Cleared(c.slots, c.used), 0)
  }

  /** A reset clears the slots counted as used, and no others. */
  function Cleared<T>(slots: seq<Option<T>>, used: int): (r: seq<Option<T>>)
    ensures |r| == |slots|
    ensures forall i | 0 <= i < |slots| :: r[i] == if i < used then None else slots[i]
  {
    seq(|slots|, i requires 0 <= i < |slots| => if i < used then None else slots[i])
  }

  /** What the operation returns. */
  function ResultOf<T(==)>(c: Contents<T>, op: Op<T>): int {
    match op
    case Add(x) => if c.used == |c.slots| || FirstSlot(c.slots, None, 0) < |c.slots| then 0 else -1
    case Remove(x) => if FirstSlot(c.slots, Some(x), 0) < |c.slots| then 0 else -1
    case Reset => 0
  }

  function After<T(==)>(ops: seq<Op<T>>): Contents<T> {
    if ops == [] then EmptyBucket() else Apply(After(ops[..|ops| - 1]), ops[|ops| - 1])
  }

  function ResultsOf<T(==)>(ops: seq<Op<T>>): seq<int> {
    if ops == [] then []
    else ResultsOf(ops[..|ops| - 1]) + [ResultOf(After(ops[..|ops| - 1]), ops[|ops| - 1])]
  }

  lemma AfterOneMore<T>(ops: seq<Op<T>>, i: nat)
    requires i < |ops|
    ensures After(ops[..i + 1]) == Apply(After(ops[..i]), ops[i])
    ensures ResultsOf(ops[..i + 1]) == ResultsOf(ops[..i]) + [ResultOf(After(ops[..i]), ops[i])]
  {
    assert ops[..i + 1][..i] == ops[..i];
  }

  // ---- on the object -------------------------------------------------------------------------------

  ghost function ContentsOf<T>(b: Bucket<T>): Contents<T>
    reads b`items, b`nOutputsUsed, b.items
  {
    Contents(b.items[..], b.nOutputsUsed)
  }

  method Perform<T>(b: Bucket<T>, op: Op<T>) returns (e: int)
    requires b.Valid() && b.locked == 0 && b.nOutputsUsed <= b.nOutputs
    modifies b, b.items
    ensures b.Valid() && b.locked == 0 && b.nOutputsUsed <= b.nOutputs
    ensures b.items == old(b.items) || fresh(b.items)
    ensures ContentsOf(b) == Apply(old(ContentsOf(b)), op)
    ensures e == ResultOf(old(ContentsOf(b)), op)
  {
    match op {
      case Add(x) => e := b.Add(Some(x));
      case Remove(x) => e := b.Remove(Some(x));
      case Reset =>
        ghost var c := ContentsOf(b);
        e := b.Reset();
        assert b.items[..] == Cleared(c.slots, c.used);
    }
  }

  /** A bucket built by additions, removals and resets. */
  method Replay<T(==)>(ops: seq<Op<T>>) returns (b: Bucket<T>, results: seq<int>)
    ensures b.Valid() && b.locked == 0 && ContentsOf(b) == After(ops)
    ensures results == ResultsOf(ops)
  {
    b := new Bucket<T>();
    results := [];
    assert ops[..0] == [];
    for i := 0 to |ops|
      invariant fresh(b) && fresh(b.items)
      invariant b.Valid() && b.locked == 0 && b.nOutputsUsed <= b.nOutputs && ContentsOf(b) == After(ops[..i])
      invariant results == ResultsOf(ops[..i])
    {
      AfterOneMore(ops, i);
      var e := Perform(b, ops[i]);
      results := results + [e];
    }
    assert ops[..|ops|] == ops;
  }

  // ---- the condition --------------------------------------------------------------------------------

  /** The operation takes an item other than the last out of a full bucket. */
  predicate Jams<T(==)>(c: Contents<T>, op: Op<T>) {
    op.Remove? && c.used == |c.slots| && FirstSlot(c.slots, Some(op.x), 0) < |c.slots| - 1
  }

  /** The history leaves a list: no operation jams, or if one does, the bucket has since been reset when
      every slot was NULL. */
  predicate Clean<T(==)>(ops: seq<Op<T>>) {
    ops == []
    || var c, op := After(ops[..|ops| - 1]), ops[|ops| - 1];
       if Clean(ops[..|ops| - 1]) then !Jams(c, op) else op.Reset? && AllNull(c.slots)
  }

  predicate AllNull<T>(slots: seq<Option<T>>) {
    forall i | 0 <= i < |slots| :: slots[i].None?
  }

  /** What such a removal leaves, and no later addition or removal repairs: no slot is NULL and the last item
      is there twice. */
  ghost predicate Jammed<T>(c: Contents<T>) {
    var n := |c.slots|;
    && 2 <= n && c.used < n
    && (forall i | 0 <= i < n :: c.slots[i].Some?)
    && c.slots[n - 2] == c.slots[n - 1]
  }

  /** More slots hold something than are counted as used. */
  ghost predicate Overfull<T>(c: Contents<T>) {
    c.used < Count(c.slots, IsSome)
  }

  predicate IsSome<T>(slot: Option<T>) {
    slot.Some?
  }

  /** The list that the operations make. */
  function WithoutFirst<T(==)>(list: seq<T>, x: T): seq<T> {
    if list == [] then [] else if list[0] == x then list[1..] else [list[0]] + WithoutFirst(list[1..], x)
  }

  function ListStep<T(==)>(list: seq<T>, op: Op<T>): seq<T> {
    match op
    case Add(x) => list + [x]
    case Remove(x) => WithoutFirst(list, x)
    case Reset => []
  }

  function ListAfter<T(==)>(ops: seq<Op<T>>): seq<T> {
    if ops == [] then [] else ListStep(ListAfter(ops[..|ops| - 1]), ops[|ops| - 1])
  }

  lemma {:induction false} WithoutFirstAt<T>(list: seq<T>, x: T, i: nat)
    requires i < |list| && list[i] == x && x !in list[..i]
    ensures WithoutFirst(list, x) == list[..i] + list[i + 1..]
    decreases |list|
  {
    if i > 0 {
      assert list[0] in list[..i];
      assert list[1..][..i - 1] == list[..i][1..];
      WithoutFirstAt(list[1..], x, i - 1);
      assert list[..i] + list[i + 1..] == [list[0]] + (list[1..][..i - 1] + list[1..][i..]);
    }
  }

  lemma {:induction false} WithoutAbsent<T>(list: seq<T>, x: T)
    requires x !in list
    ensures WithoutFirst(list, x) == list
    decreases |list|
  {
    if list != [] {
      WithoutAbsent(list[1..], x);
    }
  }

  /** One operation on a tidy bucket: as on a list, and it stays tidy unless it jams. */
  lemma TidyAdd<T>(c: Contents<T>, x: T)
    requires Tidy(c.slots, c.used)
    ensures var c' := Apply(c, Add(x));
            Tidy(c'.slots, c'.used) && Listed(c'.slots, c'.used) == Listed(c.slots, c.used) + [x]
  {
    if c.used == |c.slots| {
      GrowAppends(c.slots, x);
    } else {
      AddAppends(c.slots, c.used, x);
    }
  }

  lemma TidyRemove<T>(c: Contents<T>, x: T)
    requires Tidy(c.slots, c.used)
    ensures var c', list := Apply(c, Remove(x)), Listed(c.slots, c.used);
            Packed(c'.slots, c'.used) && Listed(c'.slots, c'.used) == WithoutFirst(list, x)
    ensures Tidy(Apply(c, Remove(x)).slots, Apply(c, Remove(x)).used) <==> !Jams(c, Remove(x))
  {
    if x in Listed(c.slots, c.used) {
      RemovesListed(c.slots, c.used, x);
      TailAfter(c.slots, c.used, x);
    } else {
      RemovesNothing(c.slots, c.used, x);
    }
  }

  lemma TailAfter<T>(slots: seq<Option<T>>, used: nat, x: T)
    requires Tidy(slots, used) && x in Listed(slots, used)
    ensures var i := FirstSlot(slots, Some(x), 0);
            i < |slots| && (Tidy(Removed(slots, i), used - 1) <==> used < |slots| || i == |slots| - 1)
  {
    FoundInList(slots, used, x);
    TailAfterRemoval(slots, used, FirstSlot(slots, Some(x), 0));
  }

  /** Success is reported exactly if the item was listed. */
  lemma TidyRemoveResult<T>(c: Contents<T>, x: T)
    requires Tidy(c.slots, c.used)
    ensures ResultOf(c, Remove(x)) == 0 <==> x in Listed(c.slots, c.used)
  {
    FoundInList(c.slots, c.used, x);
  }

  lemma RemovesListed<T>(slots: seq<Option<T>>, used: nat, x: T)
    requires Tidy(slots, used) && x in Listed(slots, used)
    ensures var i := FirstSlot(slots, Some(x), 0);
            && i < used && Packed(Removed(slots, i), used - 1)
            && Listed(Removed(slots, i), used - 1) == WithoutFirst(Listed(slots, used), x)
  {
    var i, list := FirstSlot(slots, Some(x), 0), Listed(slots, used);
    FoundInList(slots, used, x);
    RemovedFromList(slots, used, i);
    WithoutFirstAt(list, x, i);
  }

  lemma RemovesNothing<T>(slots: seq<Option<T>>, used: nat, x: T)
    requires Tidy(slots, used) && x !in Listed(slots, used)
    ensures FirstSlot(slots, Some(x), 0) == |slots|
    ensures WithoutFirst(Listed(slots, used), x) == Listed(slots, used)
  {
    FoundInList(slots, used, x);
    WithoutAbsent(Listed(slots, used), x);
  }

  /** A reset of a tidy bucket leaves an empty tidy one. */
  lemma TidyReset<T>(c: Contents<T>)
    requires Tidy(c.slots, c.used)
    ensures var c' := Apply(c, Reset); Tidy(c'.slots, c'.used) && Listed(c'.slots, c'.used) == []
  {
  }

  lemma JamsIntoJammed<T>(c: Contents<T>, op: Op<T>)
    requires Tidy(c.slots, c.used) && Jams(c, op)
    ensures Jammed(Apply(c, op))
  {
    var i, n := FirstSlot(c.slots, Some(op.x), 0), |c.slots|;
    var r := Removed(c.slots, i);
    assert r[n - 2] == c.slots[n - 1] == r[n - 1];
    assert forall j | 0 <= j < n - 1 :: r[j] == c.slots[if j < i then j else j + 1];
  }

  lemma JammedForEver<T>(c: Contents<T>, op: Op<T>)
    requires Jammed(c) && !op.Reset?
    ensures Jammed(Apply(c, op))
  {
    var n := |c.slots|;
    if op.Remove? {
      var i := FirstSlot(c.slots, Some(op.x), 0);
      if i < n {
        assert i != n - 1;
        var r := Removed(c.slots, i);
        assert r[n - 2] == c.slots[n - 1] == r[n - 1];
        assert forall j | 0 <= j < n - 1 :: r[j] == c.slots[if j < i then j else j + 1];
      }
    }
  }

  lemma JammedIsOverfull<T>(c: Contents<T>)
    requires Jammed(c)
    ensures Overfull(c)
  {
    AllCounted(c.slots);
  }

  lemma {:induction false} AllCounted<T>(slots: seq<Option<T>>)
    requires forall i | 0 <= i < |slots| :: slots[i].Some?
    ensures Count(slots, IsSome) == |slots|
  {
    if slots != [] {
      AllCounted(slots[1..]);
    }
  }

  /** What is counted is in the first `u` slots if the others are NULL. */
  lemma {:induction false} NoneBehind<T>(slots: seq<Option<T>>, u: nat)
    requires forall i | u <= i < |slots| :: slots[i].None?
    ensures Count(slots, IsSome) <= u
    decreases |slots|
  {
    if slots != [] {
      NoneBehind(slots[1..], if u == 0 then 0 else u - 1);
    }
  }

  lemma SomeBehind<T>(slots: seq<Option<T>>, u: nat)
    requires u < Count(slots, IsSome)
    ensures exists i | u <= i < |slots| :: slots[i].Some?
  {
    if forall i | u <= i < |slots| :: slots[i].None? {
      NoneBehind(slots, u);
    }
  }

  lemma TidyIsNotOverfull<T>(c: Contents<T>)
    requires Tidy(c.slots, c.used)
    ensures !Overfull(c)
  {
    NoneBehind(c.slots, c.used);
  }

  lemma {:induction false} DropCounts<T>(slots: seq<Option<T>>, i: nat)
    requires i < |slots|
    ensures Count(slots, IsSome) - 1 <= Count(slots[..i] + slots[i + 1..], IsSome)
    decreases |slots|
  {
    var rest := slots[..i] + slots[i + 1..];
    if i == 0 {
      assert rest == slots[1..];
    } else {
      assert rest[1..] == slots[1..][..i - 1] + slots[1..][i..];
      DropCounts(slots[1..], i - 1);
    }
  }

  /** A removal empties at most one slot. */
  lemma RemovedCounts<T>(slots: seq<Option<T>>, i: nat)
    requires i < |slots|
    ensures Count(slots, IsSome) - 1 <= Count(Removed(slots, i), IsSome)
  {
    if i == |slots| - 1 {
      CountUpdate(slots, i, None, IsSome);
    } else {
      DropCounts(slots, i);
      CountAppend(slots[..i] + slots[i + 1..], slots[|slots| - 1], IsSome);
    }
  }

  /** A reset clears only the slots counted as used.  It repairs a bucket that counts too few exactly if every
      slot is NULL already; otherwise something stale is left. */
  lemma ResetRepairs<T>(c: Contents<T>)
    requires Overfull(c)
    ensures var c' := Apply(c, Reset);
            if AllNull(c.slots) then Tidy(c'.slots, 0) else Overfull(c') && !AllNull(c'.slots)
  {
    var slots' := Cleared(c.slots, c.used);
    if c.used < 0 {
      assert slots' == c.slots;
    } else {
      SomeBehind(c.slots, c.used);
    }
    CountNone(slots', IsSome);
  }

  /** No addition or removal repairs it. */
  lemma OverfullOn<T>(c: Contents<T>, op: Op<T>)
    requires Overfull(c) && !op.Reset?
    ensures Overfull(Apply(c, op))
  {
    match op
    case Add(x) =>
      CountAtMost(c.slots, IsSome);
      var i := FirstSlot(c.slots, None, 0);
      if i < |c.slots| {
        CountUpdate(c.slots, i, Some(x), IsSome);
      }
    case Remove(x) =>
      var i := FirstSlot(c.slots, Some(x), 0);
      if i < |c.slots| {
        RemovedCounts(c.slots, i);
      }
  }

  /** A bucket built by additions, removals and resets keeps its tail NULL exactly if its history is clean: no
      item but the last has been taken out while the bucket was full since the start, or since a reset that
      found every slot NULL.  Then it stands for the list that the operations make; otherwise it counts too
      few of its slots as used. */
  lemma {:induction false} TidyExactly<T>(ops: seq<Op<T>>)
    ensures var c := After(ops);
            && (Clean(ops) <==> Tidy(c.slots, c.used))
            && (Clean(ops) ==> Listed(c.slots, c.used) == ListAfter(ops))
            && (!Clean(ops) ==> Overfull(c))
    decreases |ops|
  {
    if ops != [] {
      TidyExactly(ops[..|ops| - 1]);
      if Clean(ops[..|ops| - 1]) {
        CleanStep(ops);
      } else {
        DirtyStep(ops);
      }
      if !Clean(ops) && Tidy(After(ops).slots, After(ops).used) {
        TidyIsNotOverfull(After(ops));
      }
    }
  }

  lemma CleanStep<T>(ops: seq<Op<T>>)
    requires ops != [] && Clean(ops[..|ops| - 1])
    requires var c := After(ops[..|ops| - 1]);
             Tidy(c.slots, c.used) && Listed(c.slots, c.used) == ListAfter(ops[..|ops| - 1])
    ensures var c := After(ops);
            if Clean(ops) then Tidy(c.slots, c.used) && Listed(c.slots, c.used) == ListAfter(ops) else Overfull(c)
  {
    var c, op := After(ops[..|ops| - 1]), ops[|ops| - 1];
    if Jams(c, op) {
      JamsIntoJammed(c, op);
      JammedIsOverfull(Apply(c, op));
    } else {
      match op
      case Add(x) => TidyAdd(c, x);
      case Remove(x) => TidyRemove(c, x);
      case Reset => TidyReset(c);
    }
  }

  lemma DirtyStep<T>(ops: seq<Op<T>>)
    requires ops != [] && !Clean(ops[..|ops| - 1]) && Overfull(After(ops[..|ops| - 1]))
    ensures var c := After(ops);
            if Clean(ops) then Tidy(c.slots, c.used) && Listed(c.slots, c.used) == ListAfter(ops) else Overfull(c)
  {
    var c, op := After(ops[..|ops| - 1]), ops[|ops| - 1];
    if op.Reset? {
      ResetRepairs(c);
    } else {
      OverfullOn(c, op);
    }
  }

  // ---- a history that jams --------------------------------------------------------------------------

  lemma OneMore<T>(ops: seq<Op<T>>, op: Op<T>)
    ensures After(ops + [op]) == Apply(After(ops), op)
    ensures ResultsOf(ops + [op]) == ResultsOf(ops) + [ResultOf(After(ops), op)]
    ensures ListAfter(ops + [op]) == ListStep(ListAfter(ops), op)
    ensures Clean(ops + [op]) <==> if Clean(ops) then !Jams(After(ops), op) else op.Reset? && AllNull(After(ops).slots)
  {
    assert (ops + [op])[..|ops|] == ops;
  }

  /** Adding to a bucket made by additions only. */
  lemma Adds<T>(ops: seq<Op<T>>, list: seq<T>, x: T)
    requires Clean(ops) && ListAfter(ops) == list
    ensures Clean(ops + [Add(x)]) && ListAfter(ops + [Add(x)]) == list + [x]
    ensures |After(ops + [Add(x)]).slots|
         == |After(ops).slots| + (if After(ops).used == |After(ops).slots| then 4 else 0)
  {
    OneMore(ops, Add(x));
  }

  lemma Removes<T>(c: Contents<T>, x: T, i: nat)
    requires i < |c.slots| - 1 && c.slots[i] == Some(x)
    requires forall j | 0 <= j < i :: c.slots[j] != Some(x)
    ensures ResultOf(c, Remove(x)) == 0
    ensures Apply(c, Remove(x)) == Contents(c.slots[..i] + c.slots[i + 1..] + [c.slots[|c.slots| - 1]], c.used - 1)
  {
  }

  /** Four items fill a bucket. */
  lemma FourFill<T>(a: T, b: T, d: T, e: T) returns (ops: seq<Op<T>>)
    ensures ops == [Add(a), Add(b), Add(d), Add(e)]
    ensures Clean(ops) && ListAfter(ops) == [a, b, d, e]
    ensures After(ops) == Contents([Some(a), Some(b), Some(d), Some(e)], 4)
  {
    ops := [];
    Adds(ops, [], a);
    ops := ops + [Add(a)];
    TidyExactly(ops);
    Adds(ops, [a], b);
    ops := ops + [Add(b)];
    TidyExactly(ops);
    Adds(ops, [a, b], d);
    ops := ops + [Add(d)];
    TidyExactly(ops);
    Adds(ops, [a, b, d], e);
    ops := ops + [Add(e)];
    FullIsList(ops, [a, b, d, e]);
  }

  lemma FullIsList<T>(ops: seq<Op<T>>, list: seq<T>)
    requires Clean(ops) && ListAfter(ops) == list && |After(ops).slots| == |list|
    ensures After(ops) == Contents(seq(|list|, i requires 0 <= i < |list| => Some(list[i])), |list|)
  {
    TidyExactly(ops);
    var c := After(ops);
    forall i | 0 <= i < |list|
      ensures c.slots[i] == Some(list[i])
    {
      assert Listed(c.slots, c.used)[i] == list[i];
    }
  }

  lemma TakesFirst<T>(ops: seq<Op<T>>, a: T, b: T, d: T, e: T)
    requires Clean(ops) && ListAfter(ops) == [a, b, d, e]
    requires After(ops) == Contents([Some(a), Some(b), Some(d), Some(e)], 4)
    ensures !Clean(ops + [Remove(a)]) && ListAfter(ops + [Remove(a)]) == [b, d, e]
    ensures After(ops + [Remove(a)]) == Contents([Some(b), Some(d), Some(e), Some(e)], 3)
  {
    OneMore(ops, Remove(a));
    Removes(After(ops), a, 0);
    WithoutFirstAt([a, b, d, e], a, 0);
  }

  lemma TakesStale<T>(ops: seq<Op<T>>, b: T, d: T, e: T, used: int)
    requires b != e && d != e
    requires After(ops) == Contents([Some(b), Some(d), Some(e), Some(e)], used)
    ensures !Clean(ops) ==> !Clean(ops + [Remove(e)])
    ensures ListAfter(ops + [Remove(e)]) == WithoutFirst(ListAfter(ops), e)
    ensures ResultOf(After(ops), Remove(e)) == 0
    ensures After(ops + [Remove(e)]) == Contents([Some(b), Some(d), Some(e), Some(e)], used - 1)
  {
    OneMore(ops, Remove(e));
    Removes(After(ops), e, 2);
  }

  /** Four different items fill the bucket, the first is taken out, and then the last, twice.  The second
      time it is listed no longer, but its stale copy is found all the same, success is reported and the
      list loses another item. */
  lemma StaleCopyIsFound<T>(a: T, b: T, d: T, e: T) returns (ops: seq<Op<T>>)
    requires b != e && d != e
    ensures ops == [Add(a), Add(b), Add(d), Add(e), Remove(a), Remove(e)]
    ensures !Clean(ops)
    ensures ListAfter(ops) == ListAfter(ops + [Remove(e)]) == [b, d]
    ensures After(ops) == Contents([Some(b), Some(d), Some(e), Some(e)], 2)
    ensures ResultOf(After(ops), Remove(e)) == 0
    ensures After(ops + [Remove(e)]) == Contents([Some(b), Some(d), Some(e), Some(e)], 1)
  {
    ops := FourFill(a, b, d, e);
    TakesFirst(ops, a, b, d, e);
    ops := ops + [Remove(a)];
    TakesStale(ops, b, d, e, 3);
    WithoutFirstAt([b, d, e], e, 2);
    ops := ops + [Remove(e)];
    assert ops == [Add(a), Add(b), Add(d), Add(e), Remove(a), Remove(e)];
    TakesStale(ops, b, d, e, 2);
    WithoutAbsent([b, d], e);
  }
}

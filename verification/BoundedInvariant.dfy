/** What every step of the bounded queue keeps: each index is in exactly one place, the cells
    in use are exactly those of allocated indices, and `used` counts them. */
module BoundedInvariant {
  import opened Tickets
  import opened Counting
  import opened Ring
  import opened RingInvariant
  import opened RingEffects
  import opened RingSolo
  import opened BoundedMachine

  /** The one place where an index is. */
  datatype Place = InFree(j: nat) | InAlloc(j: nat) | Held(i: nat)

  /** The index that thread i holds: it has taken it out of one ring and not yet put it into the other. */
  function HeldBy<T>(s: Queue<T>, i: nat): Option<nat>
    requires s.Wf() && i < |s.pcs|
  {
    match s.pcs[i]
    case PutFree(_, _, _) => if s.free.pcs[i].DeqSome? then Some(s.free.pcs[i].x) else None
    case PutWrite(_, _, _, pos) => Some(pos)
    case PutAlloc(_, _, _, pos) => if BeforeInsert(s.alloc.pcs[i], pos) then Some(pos) else None
    case PutUncount(_, pos) => Some(pos)
    case PutReadBack(_, pos) => Some(pos)
    case PutRelease(_, pos) => if BeforeInsert(s.free.pcs[i], pos) then Some(pos) else None
    case GetAlloc => if s.alloc.pcs[i].DeqSome? then Some(s.alloc.pcs[i].x) else None
    case GetUncount(_, pos) => Some(pos)
    case GetRead(_, pos) => Some(pos)
    case GetRelease(_, pos) => if BeforeInsert(s.free.pcs[i], pos) then Some(pos) else None
    case _ => None
  }

  /** The cell of the index that the thread holds has been written and not been read. */
  predicate HoldsItem<T>(pc: QPc<T>) {
    pc.PutAlloc? || pc.PutUncount? || pc.PutReadBack? || pc.GetAlloc? || pc.GetUncount? || pc.GetRead?
  }

  /** The ticket with which thread i took an allocated index whose item it has not read yet. */
  function TakenBy<T>(s: Queue<T>, i: nat): Option<nat>
    requires s.Wf() && i < |s.pcs|
  {
    match s.pcs[i]
    case GetAlloc => if s.alloc.pcs[i].DeqSome? then Some(s.alloc.pcs[i].h) else None
    case GetUncount(h, _) => Some(h)
    case GetRead(h, _) => Some(h)
    case _ => None
  }

  /** The item that thread i wrote into the cell of the index it holds. */
  function WrittenBy<T>(s: Queue<T>, i: nat): Option<T>
    requires s.Wf() && i < |s.pcs|
  {
    match s.pcs[i]
    case PutAlloc(item, _, _, pos) => if BeforeInsert(s.alloc.pcs[i], pos) then Some(item) else None
    case PutUncount(item, _) => Some(item)
    case PutReadBack(item, _) => Some(item)
    case _ => None
  }

  /** Thread i is counted in `used`: an enqueue between increment and outcome, or a dequeue between
      taking an index and decrement. */
  predicate Counted<T>(s: Queue<T>, i: nat)
    requires s.Wf() && i < |s.pcs|
  {
    match s.pcs[i]
    case PutFull(_) => true
    case PutFree(_, _, _) => true
    case PutWrite(_, _, _, _) => true
    case PutAlloc(_, _, _, pos) => BeforeInsert(s.alloc.pcs[i], pos)
    case PutUncount(_, _) => true
    case GetAlloc => s.alloc.pcs[i].DeqSome?
    case GetUncount(_, _) => true
    case _ => false
  }

  /** The ring operations in progress are those that the queue operations call. */
  ghost predicate Coupled<T>(s: Queue<T>, i: nat)
    requires s.Wf() && i < |s.pcs|
  {
    var f, a := s.free.pcs[i], s.alloc.pcs[i];
    match s.pcs[i]
    case PutFree(_, _, _) => (Searching(f) || f.DeqSome?) && a.Idle?
    case PutAlloc(_, _, _, pos) => f.Idle? && (BeforeInsert(a, pos) || AfterInsert(a, pos))
    case PutRelease(_, pos) => (BeforeInsert(f, pos) || AfterInsert(f, pos)) && a.Idle?
    case GetAlloc => f.Idle? && (Searching(a) || a.DeqSome?)
    case GetRelease(_, pos) => (BeforeInsert(f, pos) || AfterInsert(f, pos)) && a.Idle?
    case Undefined => false
    case _ => f.Idle? && a.Idle?
  }

  /** The index x is at the place. */
  ghost predicate PlaceOk<T>(s: Queue<T>, place: Place, x: nat)
    requires s.Wf()
  {
    match place
    case InFree(j) => j < s.free.N() && s.free.slots[j].entry == Some(x)
    case InAlloc(j) => j < s.alloc.N() && s.alloc.slots[j].entry == Some(x)
    case Held(k) => k < |s.pcs| && HeldBy(s, k) == Some(x)
  }

  /** `owner` gives the one place of every index. */
  ghost predicate Owned<T>(s: Queue<T>, owner: seq<Place>)
    requires s.Wf()
  {
    && |owner| == s.cap
    && (forall x: nat :: x < s.cap ==> PlaceOk(s, owner[x], x))
    && (forall j: nat :: j < s.free.N() && s.free.slots[j].entry.Some? ==>
          s.free.slots[j].entry.value < s.cap && owner[s.free.slots[j].entry.value] == InFree(j))
    && (forall j: nat :: j < s.alloc.N() && s.alloc.slots[j].entry.Some? ==>
          s.alloc.slots[j].entry.value < s.cap && owner[s.alloc.slots[j].entry.value] == InAlloc(j))
    && (forall i: nat :: i < |s.pcs| && HeldBy(s, i).Some? ==>
          HeldBy(s, i).value < s.cap && owner[HeldBy(s, i).value] == Held(i))
  }

  ghost predicate Stores<T>(s: Queue<T>, place: Place) {
    place.InAlloc? || (place.Held? && place.i < |s.pcs| && HoldsItem(s.pcs[place.i]))
  }

  /** A cell holds an item exactly when its index is allocated, or held by a thread between the
      write of the cell and its read. */
  ghost predicate CellsOk<T>(s: Queue<T>, owner: seq<Place>)
    requires s.Wf() && |owner| == s.cap
  {
    && (forall x: nat :: x < s.cap ==> (s.cells[x].Some? <==> Stores(s, owner[x])))
    && (forall x: nat :: s.cap <= x < |s.cells| ==> s.cells[x].None?)
  }

  ghost predicate Lies<T>(s: Queue<T>, x: nat, t: nat) {
    x < |s.cells| && t in s.values && s.cells[x] == Some(s.values[t])
  }

  /** The cell of an allocated index holds the item stored with its ticket, also while the thread that
      took the index has not read it. */
  ghost predicate ValuesOk<T>(s: Queue<T>)
    requires s.Wf()
  {
    && (forall t :: t in s.values ==> t in s.alloc.log.inserted)
    && (forall t :: t in s.alloc.log.inserted && t !in s.alloc.log.taken ==> Lies(s, s.alloc.log.inserted[t], t))
    && (forall i: nat :: i < |s.pcs| && TakenBy(s, i).Some? ==>
          var h := TakenBy(s, i).value;
          && h < |s.alloc.log.deqBy| && s.alloc.log.deqBy[h] == i
          && HeldBy(s, i).Some? && h in s.alloc.log.taken && h !in s.returned && Lies(s, HeldBy(s, i).value, h))
    && (forall h :: h in s.returned ==>
          h in s.alloc.log.taken && h in s.values && s.returned[h] == s.values[h])
  }

  /** What a thread wrote into the cell of its index is still there. */
  ghost predicate WritesOk<T>(s: Queue<T>)
    requires s.Wf()
  {
    forall i: nat :: i < |s.pcs| && WrittenBy(s, i).Some? ==>
      HeldBy(s, i).Some? && HeldBy(s, i).value < |s.cells| && s.cells[HeldBy(s, i).value] == WrittenBy(s, i)
  }

  function CountFlags<T>(s: Queue<T>): seq<bool>
    requires s.Wf()
  {
    seq(|s.pcs|, i requires 0 <= i < |s.pcs| => Counted(s, i))
  }

  ghost predicate UsedOk<T>(s: Queue<T>)
    requires s.Wf()
  {
    s.used == Live(s.alloc) + Trues(CountFlags(s))
  }

  ghost predicate QInv<T>(s: Queue<T>, owner: seq<Place>) {
    && s.Wf() && Sound(s.free) && Sound(s.alloc) && !s.free.finalized
    && (forall i: nat :: i < |s.pcs| ==> Coupled(s, i))
    && Owned(s, owner) && CellsOk(s, owner) && ValuesOk(s) && WritesOk(s) && UsedOk(s)
  }

  // ---------------------------------------------------------------- threads that do not move

  /** Only thread i moves. */
  ghost predicate Only<T>(s: Queue<T>, r: Queue<T>, i: nat)
    requires s.Wf()
  {
    && SameSize(s, r) && i < |s.pcs|
    && (forall k: nat :: k < |s.pcs| && k != i ==>
          r.pcs[k] == s.pcs[k] && r.free.pcs[k] == s.free.pcs[k] && r.alloc.pcs[k] == s.alloc.pcs[k])
  }

  lemma Others<T>(s: Queue<T>, r: Queue<T>, i: nat)
    requires s.Wf() && Only(s, r, i)
    ensures forall k: nat :: k < |s.pcs| && k != i ==>
              HeldBy(r, k) == HeldBy(s, k) && TakenBy(r, k) == TakenBy(s, k)
              && WrittenBy(r, k) == WrittenBy(s, k) && Counted(r, k) == Counted(s, k)
    ensures forall k: nat :: k < |s.pcs| && k != i && Coupled(s, k) ==> Coupled(r, k)
  {
  }

  lemma CountMove<T>(s: Queue<T>, r: Queue<T>, i: nat)
    requires s.Wf() && Only(s, r, i)
    ensures Trues(CountFlags(r))
         == Trues(CountFlags(s)) - (if Counted(s, i) then 1 else 0) + (if Counted(r, i) then 1 else 0)
  {
    Others(s, r, i);
    assert CountFlags(r) == CountFlags(s)[i := Counted(r, i)];
    TruesUpdate(CountFlags(s), i, Counted(r, i));
  }

  lemma LiveMove(s: Ring, r: Ring, j: nat)
    requires s.Wf() && r.Wf() && r.half == s.half && j < s.N()
    requires forall k: nat :: k < s.N() && k != j ==> r.slots[k].entry == s.slots[k].entry
    ensures Live(r) == Live(s) - (if s.slots[j].entry.Some? then 1 else 0) + (if r.slots[j].entry.Some? then 1 else 0)
  {
    assert LiveFlags(r) == LiveFlags(s)[j := r.slots[j].entry.Some?];
    TruesUpdate(LiveFlags(s), j, r.slots[j].entry.Some?);
  }

  lemma LiveSame(s: Ring, r: Ring)
    requires s.Wf() && r.Wf() && r.half == s.half
    requires forall k: nat :: k < s.N() ==> r.slots[k].entry == s.slots[k].entry
    ensures Live(r) == Live(s)
  {
    assert LiveFlags(r) == LiveFlags(s);
  }

  // ---------------------------------------------------------------- moves that leave the entries of both rings alone

  ghost predicate SameEntries<T>(s: Queue<T>, r: Queue<T>)
    requires s.Wf() && SameSize(s, r)
  {
    && (forall j: nat :: j < s.free.N() ==> r.free.slots[j].entry == s.free.slots[j].entry)
    && (forall j: nat :: j < s.alloc.N() ==> r.alloc.slots[j].entry == s.alloc.slots[j].entry)
    && r.alloc.log.inserted == s.alloc.log.inserted && r.alloc.log.taken == s.alloc.log.taken
    && |s.alloc.log.deqBy| <= |r.alloc.log.deqBy|
    && (forall h: nat :: h < |s.alloc.log.deqBy| ==> r.alloc.log.deqBy[h] == s.alloc.log.deqBy[h])
  }

  lemma OwnedStays<T>(s: Queue<T>, r: Queue<T>, i: nat, owner: seq<Place>)
    requires s.Wf() && Owned(s, owner) && Only(s, r, i) && SameEntries(s, r) && HeldBy(r, i) == HeldBy(s, i)
    ensures Owned(r, owner)
  {
    Others(s, r, i);
    forall k: nat | k < |r.pcs| ensures HeldBy(r, k) == HeldBy(s, k) {}
    forall x: nat | x < r.cap ensures PlaceOk(r, owner[x], x) {
      assert PlaceOk(s, owner[x], x);
    }
  }

  lemma CoupledStays<T>(s: Queue<T>, r: Queue<T>, i: nat)
    requires s.Wf() && Only(s, r, i) && Coupled(r, i)
    requires forall k: nat :: k < |s.pcs| ==> Coupled(s, k)
    ensures forall k: nat :: k < |r.pcs| ==> Coupled(r, k)
  {
    forall k: nat | k < |r.pcs| ensures Coupled(r, k) { assert Coupled(s, k); }
  }

  /** An index keeps its item unless it is held by thread i. */
  lemma StoresStays<T>(s: Queue<T>, r: Queue<T>, i: nat, place: Place)
    requires s.Wf() && Only(s, r, i)
    requires place != Held(i)
    ensures Stores(r, place) <==> Stores(s, place)
  {
  }

  lemma CellsStay<T>(s: Queue<T>, r: Queue<T>, i: nat, owner: seq<Place>)
    requires s.Wf() && Owned(s, owner) && CellsOk(s, owner) && Only(s, r, i) && r.cells == s.cells
    requires HeldBy(s, i).Some? ==> HoldsItem(r.pcs[i]) == HoldsItem(s.pcs[i])
    ensures CellsOk(r, owner)
  {
    forall x: nat | x < r.cap ensures r.cells[x].Some? <==> Stores(r, owner[x]) {
      assert PlaceOk(s, owner[x], x);
      if owner[x] != Held(i) {
        StoresStays(s, r, i, owner[x]);
      }
    }
  }

  lemma ValuesStay<T>(s: Queue<T>, r: Queue<T>, i: nat)
    requires s.Wf() && ValuesOk(s) && Only(s, r, i) && r.cells == s.cells && r.values == s.values
    requires r.returned == s.returned
    requires r.alloc.log.inserted == s.alloc.log.inserted && r.alloc.log.taken == s.alloc.log.taken
    requires |s.alloc.log.deqBy| <= |r.alloc.log.deqBy|
    requires forall h: nat :: h < |s.alloc.log.deqBy| ==> r.alloc.log.deqBy[h] == s.alloc.log.deqBy[h]
    requires TakenBy(r, i) == TakenBy(s, i) && (TakenBy(r, i).Some? ==> HeldBy(r, i) == HeldBy(s, i))
    ensures ValuesOk(r)
  {
    Others(s, r, i);
    forall t | t in r.alloc.log.inserted && t !in r.alloc.log.taken ensures Lies(r, r.alloc.log.inserted[t], t) {
      assert Lies(s, s.alloc.log.inserted[t], t);
    }
    forall k: nat | k < |r.pcs| && TakenBy(r, k).Some?
      ensures var h := TakenBy(r, k).value;
              && h < |r.alloc.log.deqBy| && r.alloc.log.deqBy[h] == k
              && HeldBy(r, k).Some? && h in r.alloc.log.taken && h !in r.returned && Lies(r, HeldBy(r, k).value, h)
    {
      assert TakenBy(s, k) == TakenBy(r, k) && HeldBy(s, k) == HeldBy(r, k);
      assert Lies(s, HeldBy(s, k).value, TakenBy(s, k).value);
    }
  }

  /** Cells change only under the index that thread i holds. */
  lemma WritesStay<T>(s: Queue<T>, r: Queue<T>, i: nat, owner: seq<Place>)
    requires s.Wf() && Owned(s, owner) && WritesOk(s) && Only(s, r, i)
    requires forall x: nat :: x < s.cap && owner[x] != Held(i) ==> r.cells[x] == s.cells[x]
    requires WrittenBy(r, i).Some? ==>
               HeldBy(r, i).Some? && HeldBy(r, i).value < s.cap && r.cells[HeldBy(r, i).value] == WrittenBy(r, i)
    ensures WritesOk(r)
  {
    Others(s, r, i);
    forall k: nat | k < |r.pcs| && WrittenBy(r, k).Some?
      ensures HeldBy(r, k).Some? && HeldBy(r, k).value < |r.cells| && r.cells[HeldBy(r, k).value] == WrittenBy(r, k)
    {
      if k != i {
        assert HeldBy(s, k) == HeldBy(r, k) && WrittenBy(s, k) == WrittenBy(r, k);
        assert owner[HeldBy(s, k).value] == Held(k);
      }
    }
  }

  /** Moves of thread i that leave entries, cells, history and the index it holds alone. */
  lemma Plain<T>(s: Queue<T>, r: Queue<T>, i: nat, owner: seq<Place>)
    requires QInv(s, owner) && Only(s, r, i) && SameEntries(s, r)
    requires Sound(r.free) && Sound(r.alloc) && !r.free.finalized && Coupled(r, i)
    requires HeldBy(r, i) == HeldBy(s, i) && TakenBy(r, i) == TakenBy(s, i) && WrittenBy(r, i) == WrittenBy(s, i)
    requires HeldBy(s, i).Some? ==> HoldsItem(r.pcs[i]) == HoldsItem(s.pcs[i])
    requires r.cells == s.cells && r.values == s.values && r.returned == s.returned
    requires r.used - s.used == (if Counted(r, i) then 1 else 0) - (if Counted(s, i) then 1 else 0)
    ensures QInv(r, owner)
  {
    OwnedStays(s, r, i, owner);
    CountMove(s, r, i);
    LiveSame(s.alloc, r.alloc);
    CoupledStays(s, r, i);
    CellsStay(s, r, i, owner);
    ValuesStay(s, r, i);
    assert HeldBy(s, i).Some? ==> HeldBy(s, i).value < s.cap;
    WritesStay(s, r, i, owner);
  }

  // ---------------------------------------------------------------- moves that change a cell

  ghost predicate CellChange<T>(s: Queue<T>, r: Queue<T>, i: nat, pos: nat)
    requires s.Wf() && r.Wf() && i < |s.pcs| && |r.pcs| == |s.pcs| && |r.cells| == |s.cells|
  {
    && pos < s.cap && HeldBy(s, i) == HeldBy(r, i) == Some(pos)
    && r.cells == s.cells[pos := r.cells[pos]]
    && (r.cells[pos].Some? <==> HoldsItem(r.pcs[i]))
    && (WrittenBy(r, i).Some? ==> r.cells[pos] == WrittenBy(r, i))
  }

  lemma CellsChange<T>(s: Queue<T>, r: Queue<T>, i: nat, pos: nat, owner: seq<Place>)
    requires s.Wf() && Owned(s, owner) && CellsOk(s, owner) && Only(s, r, i) && CellChange(s, r, i, pos)
    ensures CellsOk(r, owner)
  {
    assert owner[pos] == Held(i);
    forall x: nat | x < r.cap ensures r.cells[x].Some? <==> Stores(r, owner[x]) {
      assert PlaceOk(s, owner[x], x);
      if x != pos {
        StoresStays(s, r, i, owner[x]);
      }
    }
  }

  lemma ValuesChange<T>(s: Queue<T>, r: Queue<T>, i: nat, pos: nat, owner: seq<Place>)
    requires s.Wf() && Sound(s.alloc) && Owned(s, owner) && ValuesOk(s) && Only(s, r, i) && CellChange(s, r, i, pos)
    requires r.alloc.log == s.alloc.log && r.values == s.values && TakenBy(r, i).None?
    requires r.returned == s.returned
          || (TakenBy(s, i).Some? && s.cells[pos].Some?
              && r.returned == s.returned[TakenBy(s, i).value := s.cells[pos].value])
    ensures ValuesOk(r)
  {
    Others(s, r, i);
    assert owner[pos] == Held(i);
    forall t | t in r.alloc.log.inserted && t !in r.alloc.log.taken ensures Lies(r, r.alloc.log.inserted[t], t) {
      var x := s.alloc.log.inserted[t];
      SoundLive(s.alloc, t);
      assert Lies(s, x, t);
      assert owner[x] == InAlloc(Pos(t, s.alloc.N()));
    }
    forall k: nat | k < |r.pcs| && TakenBy(r, k).Some?
      ensures var h := TakenBy(r, k).value;
              && h < |r.alloc.log.deqBy| && r.alloc.log.deqBy[h] == k
              && HeldBy(r, k).Some? && h in r.alloc.log.taken && h !in r.returned && Lies(r, HeldBy(r, k).value, h)
    {
      assert TakenBy(s, k) == TakenBy(r, k) && HeldBy(s, k) == HeldBy(r, k);
      assert Lies(s, HeldBy(s, k).value, TakenBy(s, k).value);
      assert owner[HeldBy(s, k).value] == Held(k);
    }
  }

  /** Moves that change the cell of the index the thread holds, and nothing about entries. */
  lemma CellMove<T>(s: Queue<T>, r: Queue<T>, i: nat, pos: nat, owner: seq<Place>)
    requires QInv(s, owner) && Only(s, r, i) && SameEntries(s, r) && r.alloc.log == s.alloc.log
    requires Sound(r.free) && Sound(r.alloc) && !r.free.finalized && Coupled(r, i)
    requires CellChange(s, r, i, pos)
    requires TakenBy(r, i).None? && r.values == s.values && r.used == s.used
    requires Counted(s, i) <==> Counted(r, i)
    requires r.returned == s.returned
          || (TakenBy(s, i).Some? && s.cells[pos].Some?
              && r.returned == s.returned[TakenBy(s, i).value := s.cells[pos].value])
    ensures QInv(r, owner)
  {
    OwnedStays(s, r, i, owner);
    CountMove(s, r, i);
    LiveSame(s.alloc, r.alloc);
    CoupledStays(s, r, i);
    CellsChange(s, r, i, pos, owner);
    ValuesChange(s, r, i, pos, owner);
    assert owner[pos] == Held(i);
    WritesStay(s, r, i, owner);
  }

  // ---------------------------------------------------------------- indices that change their place

  /** Thread i puts the index x that it holds into a slot of one ring, which was empty. */
  ghost predicate PutsIn<T>(s: Queue<T>, r: Queue<T>, i: nat, x: nat, place: Place)
    requires s.Wf() && r.Wf() && r.cap == s.cap && i < |s.pcs| && |r.pcs| == |s.pcs|
  {
    && x < s.cap && HeldBy(s, i) == Some(x) && HeldBy(r, i) == None && !place.Held?
    && (place.InFree? ==>
          && place.j < s.free.N() && s.free.slots[place.j].entry.None?
          && r.free.slots[place.j].entry == Some(x))
    && (place.InAlloc? ==>
          && place.j < s.alloc.N() && s.alloc.slots[place.j].entry.None?
          && r.alloc.slots[place.j].entry == Some(x))
    && (forall j: nat :: j < s.free.N() && place != InFree(j) ==> r.free.slots[j].entry == s.free.slots[j].entry)
    && (forall j: nat :: j < s.alloc.N() && place != InAlloc(j) ==> r.alloc.slots[j].entry == s.alloc.slots[j].entry)
  }

  /** Thread i takes the index x out of its slot. */
  ghost predicate TakesOut<T>(s: Queue<T>, r: Queue<T>, i: nat, x: nat, place: Place)
    requires s.Wf() && r.Wf() && r.cap == s.cap && i < |s.pcs| && |r.pcs| == |s.pcs|
  {
    && x < s.cap && HeldBy(s, i) == None && HeldBy(r, i) == Some(x) && !place.Held?
    && (place.InFree? ==>
          && place.j < s.free.N() && s.free.slots[place.j].entry == Some(x)
          && r.free.slots[place.j].entry.None?)
    && (place.InAlloc? ==>
          && place.j < s.alloc.N() && s.alloc.slots[place.j].entry == Some(x)
          && r.alloc.slots[place.j].entry.None?)
    && (forall j: nat :: j < s.free.N() && place != InFree(j) ==> r.free.slots[j].entry == s.free.slots[j].entry)
    && (forall j: nat :: j < s.alloc.N() && place != InAlloc(j) ==> r.alloc.slots[j].entry == s.alloc.slots[j].entry)
  }

  lemma OwnedPut<T>(s: Queue<T>, r: Queue<T>, i: nat, x: nat, place: Place, owner: seq<Place>)
    requires s.Wf() && Owned(s, owner) && Only(s, r, i) && PutsIn(s, r, i, x, place)
    ensures Owned(r, owner[x := place])
  {
    Others(s, r, i);
    assert owner[x] == Held(i);
    var owner' := owner[x := place];
    forall y: nat | y < r.cap ensures PlaceOk(r, owner'[y], y) {
      assert PlaceOk(s, owner[y], y);
    }
  }

  lemma OwnedTake<T>(s: Queue<T>, r: Queue<T>, i: nat, x: nat, place: Place, owner: seq<Place>)
    requires s.Wf() && Owned(s, owner) && Only(s, r, i) && TakesOut(s, r, i, x, place)
    ensures owner[x] == place && Owned(r, owner[x := Held(i)])
  {
    Others(s, r, i);
    assert owner[x] == place;
    var owner' := owner[x := Held(i)];
    forall y: nat | y < r.cap ensures PlaceOk(r, owner'[y], y) {
      assert PlaceOk(s, owner[y], y);
    }
  }

  /** The index changes its place, and its cell stays as it is. */
  lemma CellsFollow<T>(s: Queue<T>, r: Queue<T>, i: nat, x: nat, place: Place, owner: seq<Place>)
    requires s.Wf() && Owned(s, owner) && CellsOk(s, owner) && Only(s, r, i) && r.cells == s.cells && x < s.cap
    requires HeldBy(s, i) == None || HeldBy(s, i) == Some(x)
    requires Stores(s, owner[x]) <==> Stores(r, place)
    ensures CellsOk(r, owner[x := place])
  {
    forall y: nat | y < r.cap ensures r.cells[y].Some? <==> Stores(r, owner[x := place][y]) {
      assert PlaceOk(s, owner[y], y);
      if y != x {
        StoresStays(s, r, i, owner[y]);
      }
    }
  }

  // ---------------------------------------------------------------- steps of the free ring

  lemma FreeQuiet<T>(s: Queue<T>, f: Ring, i: nat, owner: seq<Place>)
    requires QInv(s, owner) && i < |s.pcs| && Does(s.free, f, i, Quiet)
    requires (s.pcs[i].PutFree? && Searching(s.free.pcs[i])) || s.pcs[i].PutRelease? || s.pcs[i].GetRelease?
    ensures QInv(s.(free := f), owner)
  {
    assert Coupled(s, i);
    Plain(s, s.(free := f), i, owner);
  }

  /** What a move of an index between its holder and a slot of the free ring leaves alone. */
  ghost predicate FreeOnly<T>(s: Queue<T>, r: Queue<T>, i: nat)
    requires s.Wf() && r.Wf() && i < |s.pcs| && i < |r.pcs|
  {
    && Only(s, r, i) && Sound(r.free) && !r.free.finalized && Coupled(r, i)
    && r.alloc == s.alloc && r.cells == s.cells && r.values == s.values && r.returned == s.returned && r.used == s.used
    && TakenBy(r, i).None? && TakenBy(s, i).None? && WrittenBy(r, i).None?
    && Counted(r, i) == Counted(s, i) && !HoldsItem(r.pcs[i]) && !HoldsItem(s.pcs[i])
  }

  lemma FreePuts<T>(s: Queue<T>, f: Ring, i: nat, t: nat, x: nat)
    requires s.Wf() && !s.free.finalized && i < |s.pcs| && Coupled(s, i) && Does(s.free, f, i, Insertion(t, x))
    requires s.pcs[i].PutRelease? || s.pcs[i].GetRelease?
    ensures var r := s.(free := f);
            && r.Wf() && FreeOnly(s, r, i) && HeldBy(s, i) == Some(x)
            && (x < s.cap ==> PutsIn(s, r, i, x, InFree(Pos(t, s.free.N()))))
  {
  }

  lemma FreeTakes<T>(s: Queue<T>, f: Ring, i: nat, h: nat, x: nat)
    requires s.Wf() && !s.free.finalized && i < |s.pcs| && Coupled(s, i) && Does(s.free, f, i, Removal(h, x))
    requires s.pcs[i].PutFree?
    ensures var r := s.(free := f);
            && r.Wf() && FreeOnly(s, r, i) && s.free.slots[Pos(h, s.free.N())].entry == Some(x)
            && (x < s.cap ==> TakesOut(s, r, i, x, InFree(Pos(h, s.free.N()))))
  {
  }

  /** The index goes from thread i into the free ring. */
  lemma FreePutMove<T>(s: Queue<T>, r: Queue<T>, i: nat, x: nat, place: Place, owner: seq<Place>)
    requires QInv(s, owner) && r.Wf() && i < |s.pcs| && i < |r.pcs|
    requires FreeOnly(s, r, i) && PutsIn(s, r, i, x, place) && place.InFree?
    ensures QInv(r, owner[x := place])
  {
    CountMove(s, r, i);
    CoupledStays(s, r, i);
    OwnedPut(s, r, i, x, place, owner);
    CellsFollow(s, r, i, x, place, owner);
    ValuesStay(s, r, i);
    WritesStay(s, r, i, owner);
  }

  /** The index goes from the free ring to thread i. */
  lemma FreeTakeMove<T>(s: Queue<T>, r: Queue<T>, i: nat, x: nat, place: Place, owner: seq<Place>)
    requires QInv(s, owner) && r.Wf() && i < |s.pcs| && i < |r.pcs|
    requires FreeOnly(s, r, i) && TakesOut(s, r, i, x, place) && place.InFree?
    ensures QInv(r, owner[x := Held(i)])
  {
    CountMove(s, r, i);
    CoupledStays(s, r, i);
    OwnedTake(s, r, i, x, place, owner);
    CellsFollow(s, r, i, x, Held(i), owner);
    ValuesStay(s, r, i);
    WritesStay(s, r, i, owner);
  }

  lemma FreeInsertion<T>(s: Queue<T>, f: Ring, i: nat, t: nat, x: nat, owner: seq<Place>) returns (owner': seq<Place>)
    requires QInv(s, owner) && i < |s.pcs| && Does(s.free, f, i, Insertion(t, x))
    requires s.pcs[i].PutRelease? || s.pcs[i].GetRelease?
    ensures QInv(s.(free := f), owner')
  {
    var place := InFree(Pos(t, s.free.N()));
    assert Coupled(s, i);
    FreePuts(s, f, i, t, x);
    FreePutMove(s, s.(free := f), i, x, place, owner);
    owner' := owner[x := place];
  }

  lemma FreeRemoval<T>(s: Queue<T>, f: Ring, i: nat, h: nat, x: nat, owner: seq<Place>) returns (owner': seq<Place>)
    requires QInv(s, owner) && i < |s.pcs| && Does(s.free, f, i, Removal(h, x)) && s.pcs[i].PutFree?
    ensures QInv(s.(free := f), owner')
  {
    var place := InFree(Pos(h, s.free.N()));
    assert Coupled(s, i);
    FreeTakes(s, f, i, h, x);
    FreeTakeMove(s, s.(free := f), i, x, place, owner);
    owner' := owner[x := Held(i)];
  }

  /** A put only takes out of the free ring, and a release only puts in. */
  lemma FreeKind<T>(s: Queue<T>, f: Ring, i: nat, g: Effect)
    requires s.Wf() && i < |s.pcs| && Coupled(s, i) && Does(s.free, f, i, g)
    requires (s.pcs[i].PutFree? && Searching(s.free.pcs[i])) || s.pcs[i].PutRelease? || s.pcs[i].GetRelease?
    ensures g.Insertion? ==> s.pcs[i].PutRelease? || s.pcs[i].GetRelease?
    ensures g.Removal? ==> s.pcs[i].PutFree?
  {
  }

  lemma FreeMove<T>(s: Queue<T>, f: Ring, i: nat, g: Effect, owner: seq<Place>) returns (owner': seq<Place>)
    requires QInv(s, owner) && i < |s.pcs| && Does(s.free, f, i, g)
    requires (s.pcs[i].PutFree? && Searching(s.free.pcs[i])) || s.pcs[i].PutRelease? || s.pcs[i].GetRelease?
    ensures QInv(s.(free := f), owner')
  {
    FreeKind(s, f, i, g);
    if g.Quiet? {
      FreeQuiet(s, f, i, owner);
      owner' := owner;
    } else if g.Insertion? {
      owner' := FreeInsertion(s, f, i, g.t, g.x, owner);
    } else {
      owner' := FreeRemoval(s, f, i, g.h, g.x, owner);
    }
  }

  // ---------------------------------------------------------------- steps of the allocated ring

  lemma AllocQuiet<T>(s: Queue<T>, a: Ring, i: nat, owner: seq<Place>)
    requires QInv(s, owner) && i < |s.pcs| && Does(s.alloc, a, i, Quiet)
    requires (s.pcs[i].GetAlloc? && Searching(s.alloc.pcs[i])) || s.pcs[i].PutAlloc?
    ensures QInv(s.(alloc := a), owner)
  {
    assert Coupled(s, i);
    Plain(s, s.(alloc := a), i, owner);
  }

  ghost predicate AllocOnly<T>(s: Queue<T>, r: Queue<T>, i: nat)
    requires s.Wf() && r.Wf() && i < |s.pcs| && i < |r.pcs|
  {
    && Only(s, r, i) && Sound(r.alloc) && Coupled(r, i)
    && r.free == s.free && r.cells == s.cells && r.returned == s.returned && r.used == s.used
    && |s.alloc.log.deqBy| <= |r.alloc.log.deqBy|
    && (forall h: nat :: h < |s.alloc.log.deqBy| ==> r.alloc.log.deqBy[h] == s.alloc.log.deqBy[h])
  }

  lemma AllocPuts<T>(s: Queue<T>, a: Ring, i: nat, t: nat, x: nat)
    requires s.Wf() && i < |s.pcs| && Coupled(s, i) && Does(s.alloc, a, i, Insertion(t, x)) && s.pcs[i].PutAlloc?
    ensures var r := s.(alloc := a, values := s.values[t := s.pcs[i].item]);
            && r.Wf() && AllocOnly(s, r, i) && HeldBy(s, i) == Some(x) && WrittenBy(s, i) == Some(s.pcs[i].item)
            && TakenBy(r, i).None? && WrittenBy(r, i).None? && Counted(s, i) && !Counted(r, i)
            && Pos(t, s.alloc.N()) < s.alloc.N()
            && (x < s.cap ==> PutsIn(s, r, i, x, InAlloc(Pos(t, s.alloc.N()))))
            && t !in s.alloc.log.inserted
            && a.log.inserted == s.alloc.log.inserted[t := x] && a.log.taken == s.alloc.log.taken
  {
  }

  /** The index goes from thread i into the allocated ring, under ticket t. */
  lemma AllocPutMove<T>(s: Queue<T>, r: Queue<T>, i: nat, t: nat, x: nat, j: nat, owner: seq<Place>)
    requires QInv(s, owner) && r.Wf() && i < |s.pcs| && i < |r.pcs|
    requires AllocOnly(s, r, i) && PutsIn(s, r, i, x, InAlloc(j))
    requires s.pcs[i].PutAlloc? && WrittenBy(s, i) == Some(s.pcs[i].item)
    requires TakenBy(r, i).None? && WrittenBy(r, i).None? && Counted(s, i) && !Counted(r, i)
    requires t !in s.alloc.log.inserted && r.values == s.values[t := s.pcs[i].item]
    requires r.alloc.log.inserted == s.alloc.log.inserted[t := x] && r.alloc.log.taken == s.alloc.log.taken
    ensures QInv(r, owner[x := InAlloc(j)])
  {
    assert owner[x] == Held(i);
    CountMove(s, r, i);
    LiveMove(s.alloc, r.alloc, j);
    CoupledStays(s, r, i);
    OwnedPut(s, r, i, x, InAlloc(j), owner);
    CellsFollow(s, r, i, x, InAlloc(j), owner);
    ValuesInsert(s, r, i, t, x);
    WritesStay(s, r, i, owner);
  }

  lemma AllocInsertion<T>(s: Queue<T>, a: Ring, i: nat, t: nat, x: nat, owner: seq<Place>) returns (owner': seq<Place>)
    requires QInv(s, owner) && i < |s.pcs| && Does(s.alloc, a, i, Insertion(t, x)) && s.pcs[i].PutAlloc?
    ensures QInv(s.(alloc := a, values := s.values[t := s.pcs[i].item]), owner')
  {
    assert Coupled(s, i);
    var j := Pos(t, s.alloc.N());
    AllocPuts(s, a, i, t, x);
    AllocPutMove(s, s.(alloc := a, values := s.values[t := s.pcs[i].item]), i, t, x, j, owner);
    owner' := owner[x := InAlloc(j)];
  }

  lemma ValuesInsert<T>(s: Queue<T>, r: Queue<T>, i: nat, t: nat, x: nat)
    requires s.Wf() && ValuesOk(s) && Only(s, r, i) && r.cells == s.cells && s.Filled(x)
    requires r.returned == s.returned && r.values == s.values[t := s.cells[x].value]
    requires t !in s.alloc.log.inserted
    requires r.alloc.log.inserted == s.alloc.log.inserted[t := x] && r.alloc.log.taken == s.alloc.log.taken
    requires |s.alloc.log.deqBy| <= |r.alloc.log.deqBy|
    requires forall h: nat :: h < |s.alloc.log.deqBy| ==> r.alloc.log.deqBy[h] == s.alloc.log.deqBy[h]
    requires TakenBy(r, i).None?
    ensures ValuesOk(r)
  {
    Others(s, r, i);
    forall u | u in r.alloc.log.inserted && u !in r.alloc.log.taken ensures Lies(r, r.alloc.log.inserted[u], u) {
      assert u == t || Lies(s, s.alloc.log.inserted[u], u);
    }
    forall k: nat | k < |r.pcs| && TakenBy(r, k).Some?
      ensures var h := TakenBy(r, k).value;
              && h < |r.alloc.log.deqBy| && r.alloc.log.deqBy[h] == k
              && HeldBy(r, k).Some? && h in r.alloc.log.taken && h !in r.returned && Lies(r, HeldBy(r, k).value, h)
    {
      assert TakenBy(s, k) == TakenBy(r, k) && HeldBy(s, k) == HeldBy(r, k);
      assert Lies(s, HeldBy(s, k).value, TakenBy(s, k).value);
    }
  }

  lemma AllocTakes<T>(s: Queue<T>, a: Ring, i: nat, h: nat, x: nat)
    requires s.Wf() && i < |s.pcs| && Coupled(s, i) && Does(s.alloc, a, i, Removal(h, x)) && s.pcs[i].GetAlloc?
    ensures var r := s.(alloc := a);
            && r.Wf() && AllocOnly(s, r, i) && Pos(h, s.alloc.N()) < s.alloc.N()
            && s.alloc.slots[Pos(h, s.alloc.N())].entry == Some(x)
            && TakenBy(r, i) == Some(h) && WrittenBy(r, i).None? && !Counted(s, i) && Counted(r, i)
            && (x < s.cap ==> TakesOut(s, r, i, x, InAlloc(Pos(h, s.alloc.N()))))
            && h in s.alloc.log.inserted && s.alloc.log.inserted[h] == x && h !in s.alloc.log.taken
            && h < |s.alloc.log.deqBy| && s.alloc.log.deqBy[h] == i
            && a.log.inserted == s.alloc.log.inserted && a.log.taken == s.alloc.log.taken[h := x]
  {
  }

  /** The index goes from the allocated ring to thread i, under ticket h. */
  lemma AllocTakeMove<T>(s: Queue<T>, r: Queue<T>, i: nat, h: nat, x: nat, j: nat, owner: seq<Place>)
    requires QInv(s, owner) && r.Wf() && i < |s.pcs| && i < |r.pcs|
    requires AllocOnly(s, r, i) && TakesOut(s, r, i, x, InAlloc(j))
    requires r.pcs[i].GetAlloc? && s.pcs[i].GetAlloc? && r.values == s.values
    requires TakenBy(r, i) == Some(h) && WrittenBy(r, i).None? && !Counted(s, i) && Counted(r, i)
    requires h in s.alloc.log.inserted && s.alloc.log.inserted[h] == x && h !in s.alloc.log.taken
    requires h < |s.alloc.log.deqBy| && s.alloc.log.deqBy[h] == i
    requires r.alloc.log.inserted == s.alloc.log.inserted && r.alloc.log.taken == s.alloc.log.taken[h := x]
    ensures QInv(r, owner[x := Held(i)])
  {
    CountMove(s, r, i);
    LiveMove(s.alloc, r.alloc, j);
    CoupledStays(s, r, i);
    OwnedTake(s, r, i, x, InAlloc(j), owner);
    CellsFollow(s, r, i, x, Held(i), owner);
    ValuesRemove(s, r, i, h, x);
    WritesStay(s, r, i, owner);
  }

  lemma AllocRemoval<T>(s: Queue<T>, a: Ring, i: nat, h: nat, x: nat, owner: seq<Place>) returns (owner': seq<Place>)
    requires QInv(s, owner) && i < |s.pcs| && Does(s.alloc, a, i, Removal(h, x)) && s.pcs[i].GetAlloc?
    ensures QInv(s.(alloc := a), owner')
  {
    assert Coupled(s, i);
    AllocTakes(s, a, i, h, x);
    AllocTakeMove(s, s.(alloc := a), i, h, x, Pos(h, s.alloc.N()), owner);
    owner' := owner[x := Held(i)];
  }

  lemma ValuesRemove<T>(s: Queue<T>, r: Queue<T>, i: nat, h: nat, x: nat)
    requires s.Wf() && ValuesOk(s) && Only(s, r, i) && r.cells == s.cells
    requires r.returned == s.returned && r.values == s.values
    requires h in s.alloc.log.inserted && s.alloc.log.inserted[h] == x && h !in s.alloc.log.taken
    requires r.alloc.log.inserted == s.alloc.log.inserted && r.alloc.log.taken == s.alloc.log.taken[h := x]
    requires |s.alloc.log.deqBy| <= |r.alloc.log.deqBy|
    requires forall u: nat :: u < |s.alloc.log.deqBy| ==> r.alloc.log.deqBy[u] == s.alloc.log.deqBy[u]
    requires h < |s.alloc.log.deqBy| && s.alloc.log.deqBy[h] == i
    requires TakenBy(r, i) == Some(h) && HeldBy(r, i) == Some(x)
    ensures ValuesOk(r)
  {
    Others(s, r, i);
    assert Lies(s, x, h);
    forall u | u in r.alloc.log.inserted && u !in r.alloc.log.taken ensures Lies(r, r.alloc.log.inserted[u], u) {
      assert Lies(s, s.alloc.log.inserted[u], u);
    }
    forall k: nat | k < |r.pcs| && TakenBy(r, k).Some?
      ensures var u := TakenBy(r, k).value;
              && u < |r.alloc.log.deqBy| && r.alloc.log.deqBy[u] == k
              && HeldBy(r, k).Some? && u in r.alloc.log.taken && u !in r.returned && Lies(r, HeldBy(r, k).value, u)
    {
      if k != i {
        assert TakenBy(s, k) == TakenBy(r, k) && HeldBy(s, k) == HeldBy(r, k);
        assert Lies(s, HeldBy(s, k).value, TakenBy(s, k).value);
      }
    }
  }

  lemma AllocKind<T>(s: Queue<T>, a: Ring, i: nat, g: Effect)
    requires s.Wf() && i < |s.pcs| && Coupled(s, i) && Does(s.alloc, a, i, g)
    requires (s.pcs[i].GetAlloc? && Searching(s.alloc.pcs[i])) || s.pcs[i].PutAlloc?
    ensures g.Insertion? ==> s.pcs[i].PutAlloc?
    ensures g.Removal? ==> s.pcs[i].GetAlloc?
  {
  }
}

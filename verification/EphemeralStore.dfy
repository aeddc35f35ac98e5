/** The in-memory store for short-lived values: an insertion-ordered map with expiry times and a cap. */
module EphemeralStore {
  import opened Wrappers

  datatype Entry<V> = Entry(key: string, value: V, expiresAt: int)

  // ----- a JavaScript Map: rows in insertion order, one per key -----

  ghost predicate DistinctKeys<V(!new)>(rows: seq<Entry<V>>) {
    forall i, j :: 0 <= i < j < |rows| ==> rows[i].key != rows[j].key
  }

  function Find<V(!new)>(rows: seq<Entry<V>>, key: string): (r: Option<Entry<V>>)
    ensures r.Some? ==> r.value in rows && r.value.key == key
    ensures r.None? ==> forall e :: e in rows ==> e.key != key
  {
    if rows == [] then None
    else if rows[0].key == key then Some(rows[0])
    else Find(rows[1..], key)
  }

  function Without<V(!new)>(rows: seq<Entry<V>>, key: string): seq<Entry<V>> {
    if rows == [] then []
    else
      var init := Without(rows[..|rows| - 1], key);
      var last := rows[|rows| - 1];
      if last.key == key then init else init + [last]
  }

  /** `map.set` on a key that is there: the row keeps its place. */
  function Overwritten<V(!new)>(rows: seq<Entry<V>>, key: string, value: V, expiresAt: int): (r: seq<Entry<V>>)
    ensures |r| == |rows|
    ensures forall i :: 0 <= i < |rows| ==>
              r[i] == if rows[i].key == key then rows[i].(value := value, expiresAt := expiresAt) else rows[i]
  {
    seq(|rows|, i requires 0 <= i < |rows| =>
      if rows[i].key == key then rows[i].(value := value, expiresAt := expiresAt) else rows[i])
  }

  /** `map.set` */
  function Put<V(!new)>(rows: seq<Entry<V>>, key: string, value: V, expiresAt: int): seq<Entry<V>> {
    if Find(rows, key).Some? then Overwritten(rows, key, value, expiresAt)
    else rows + [Entry(key, value, expiresAt)]
  }

  function Alive<V(!new)>(rows: seq<Entry<V>>, now: int): seq<Entry<V>> {
    if rows == [] then []
    else
      var init := Alive(rows[..|rows| - 1], now);
      var last := rows[|rows| - 1];
      if last.expiresAt < now then init else init + [last]
  }

  // ----- the operations on the rows -----

  /** The rows before the new one is written: expired rows gone, and the first row gone too if the
      key is new and the map is full, unless that row's key is the empty string. */
  function RoomFor<V(!new)>(rows: seq<Entry<V>>, cap: nat, key: string, gcNow: int): seq<Entry<V>> {
    var alive := Alive(rows, gcNow);
    if Evicts(rows, cap, key, gcNow) then alive[1..] else alive
  }

  predicate Evicts<V(!new)>(rows: seq<Entry<V>>, cap: nat, key: string, gcNow: int) {
    var alive := Alive(rows, gcNow);
    |alive| >= cap && Find(alive, key).None? && alive != [] && alive[0].key != ""
  }

  function AfterSet<V(!new)>(rows: seq<Entry<V>>, cap: nat, key: string, value: V, ttl: int, gcNow: int, now: int)
    : seq<Entry<V>>
  {
    Put(RoomFor(rows, cap, key, gcNow), key, value, now + ttl)
  }

  function GetAnswer<V(!new)>(rows: seq<Entry<V>>, key: string, now: int): Option<V> {
    match Find(rows, key)
    case None => None
    case Some(e) => if e.expiresAt < now then None else Some(e.value)
  }

  function AfterGet<V(!new)>(rows: seq<Entry<V>>, key: string, now: int): seq<Entry<V>> {
    match Find(rows, key)
    case None => rows
    case Some(e) => if e.expiresAt < now then Without(rows, key) else rows
  }

  class InMemoryEphemeralStore<V(!new)> {
    const cap: nat
    var entries: seq<Entry<V>>

    ghost predicate Valid()
      reads this
    {
      DistinctKeys(entries)
    }

    constructor (cap: nat)
      ensures Valid() && this.cap == cap && entries == []
    {
      this.cap := cap;
      entries := [];
    }

    method Get(key: string, now: int) returns (r: Option<V>)
      requires Valid()
      modifies this
      ensures Valid()
      ensures r == GetAnswer(old(entries), key, now) && entries == AfterGet(old(entries), key, now)
      ensures forall e :: e in old(entries) && e.key == key && e.expiresAt >= now ==> r == Some(e.value)
      ensures (forall e :: e in old(entries) && e.key == key ==> e.expiresAt < now) ==> r.None?
      ensures forall e :: e in entries <==> e in old(entries) && (e.key != key || e.expiresAt >= now)
    {
      FoundIsOnly(entries, key);
      WithoutMembers(entries, key);
      var row := Find(entries, key);
      if row.None? {
        return None;
      }
      if row.value.expiresAt < now {
        WithoutDistinct(entries, key);
        entries := Without(entries, key);
        return None;
      }
      return Some(row.value.value);
    }

    /** The first half of a write: sweep, then evict the row inserted first if the map is full. */
    method MakeRoom(key: string, gcNow: int)
      requires Valid()
      modifies this
      ensures Valid()
      ensures entries == RoomFor(old(entries), cap, key, gcNow)
    {
      GcExpired(gcNow);
      var found := Find(entries, key);
      if |entries| >= cap && found.None? && entries != [] {
        var oldest := entries[0].key;
        if oldest != "" {
          DropFirst(entries);
          entries := Without(entries, oldest);
        }
      }
    }

    /** The clock is read twice: by the sweep, and for the new expiry time. */
    method Set(key: string, value: V, ttl: int, gcNow: int, now: int)
      requires Valid()
      modifies this
      ensures Valid()
      ensures entries == AfterSet(old(entries), cap, key, value, ttl, gcNow, now)
    {
      MakeRoom(key, gcNow);
      PutDistinct(entries, key, value, now + ttl);
      var found := Find(entries, key);
      if found.Some? {
        entries := Overwritten(entries, key, value, now + ttl);
      } else {
        entries := entries + [Entry(key, value, now + ttl)];
      }
    }

    method Delete(key: string)
      requires Valid()
      modifies this
      ensures Valid()
      ensures entries == Without(old(entries), key)
      ensures forall e :: e in entries <==> e in old(entries) && e.key != key
    {
      WithoutMembers(entries, key);
      WithoutDistinct(entries, key);
      entries := Without(entries, key);
    }

    method GcExpired(now: int)
      requires Valid()
      modifies this
      ensures Valid()
      ensures entries == Alive(old(entries), now)
    {
      ghost var before := entries;
      ghost var seen := 0;
      var i := 0;
      SweepEnds(before, now);
      while i < |entries|
        invariant seen <= |before| && i == |Alive(before[..seen], now)|
        invariant entries == Swept(before, seen, now)
        decreases |before| - seen
      {
        SweepStep(before, seen, now);
        if entries[i].expiresAt < now {
          entries := entries[..i] + entries[i + 1..];
        } else {
          i := i + 1;
        }
        seen := seen + 1;
      }
      AliveDistinct(before, now);
    }
  }

  // ----- facts about the rows -----

  lemma FoundIsOnly<V(!new)>(rows: seq<Entry<V>>, key: string)
    requires DistinctKeys(rows)
    ensures forall e :: e in rows && e.key == key ==> Find(rows, key) == Some(e)
  {
  }

  lemma {:induction false} WithoutMembers<V(!new)>(rows: seq<Entry<V>>, key: string)
    ensures forall e :: e in Without(rows, key) <==> e in rows && e.key != key
    ensures |Without(rows, key)| <= |rows|
  {
    if rows != [] {
      var init, last := rows[..|rows| - 1], rows[|rows| - 1];
      WithoutMembers(init, key);
      assert forall e :: e in rows <==> e in init || e == last;
    }
  }

  lemma {:induction false} AliveMembers<V(!new)>(rows: seq<Entry<V>>, now: int)
    ensures forall e :: e in Alive(rows, now) <==> e in rows && e.expiresAt >= now
    ensures |Alive(rows, now)| <= |rows|
  {
    if rows != [] {
      var init, last := rows[..|rows| - 1], rows[|rows| - 1];
      AliveMembers(init, now);
      assert forall e :: e in rows <==> e in init || e == last;
    }
  }

  lemma {:induction false} AliveDistinct<V(!new)>(rows: seq<Entry<V>>, now: int)
    requires DistinctKeys(rows)
    ensures DistinctKeys(Alive(rows, now))
  {
    if rows != [] {
      var init, last := rows[..|rows| - 1], rows[|rows| - 1];
      AliveDistinct(init, now);
      AliveMembers(init, now);
      forall e | e in init
        ensures e.key != last.key
      {
      }
    }
  }

  /** The rows in the middle of the sweep: those kept so far, and those not looked at yet. */
  ghost function Swept<V(!new)>(before: seq<Entry<V>>, seen: nat, now: int): seq<Entry<V>>
    requires seen <= |before|
  {
    Alive(before[..seen], now) + before[seen..]
  }

  lemma SweepStep<V(!new)>(before: seq<Entry<V>>, seen: nat, now: int)
    requires seen < |before|
    ensures var i := |Alive(before[..seen], now)|;
            var rows, next := Swept(before, seen, now), Swept(before, seen + 1, now);
            && i < |rows| && rows[i] == before[seen]
            && next == (if before[seen].expiresAt < now then rows[..i] + rows[i + 1..] else rows)
            && |Alive(before[..seen + 1], now)| == (if before[seen].expiresAt < now then i else i + 1)
  {
    assert before[..seen + 1][..seen] == before[..seen];
    assert before[seen..] == [before[seen]] + before[seen + 1..];
  }

  lemma SweepEnds<V(!new)>(before: seq<Entry<V>>, now: int)
    ensures Swept(before, 0, now) == before
    ensures Swept(before, |before|, now) == Alive(before, now)
  {
    assert before[..|before|] == before;
  }

  lemma {:induction false} WithoutDistinct<V(!new)>(rows: seq<Entry<V>>, key: string)
    requires DistinctKeys(rows)
    ensures DistinctKeys(Without(rows, key))
  {
    if rows != [] {
      var init := rows[..|rows| - 1];
      WithoutDistinct(init, key);
      WithoutMembers(init, key);
    }
  }

  lemma PutDistinct<V(!new)>(rows: seq<Entry<V>>, key: string, value: V, expiresAt: int)
    requires DistinctKeys(rows)
    ensures DistinctKeys(Put(rows, key, value, expiresAt))
  {
  }

  /** After a write the key has the new value, and the other rows are what they were. */
  lemma PutFacts<V(!new)>(rows: seq<Entry<V>>, key: string, value: V, expiresAt: int)
    ensures var r := Put(rows, key, value, expiresAt);
            && (forall e :: e in r ==> if e.key == key then e == Entry(key, value, expiresAt) else e in rows)
            && Find(r, key).Some?
            && (forall e :: e in rows && e.key != key ==> e in r)
  {
    var r := Put(rows, key, value, expiresAt);
    if Find(rows, key).Some? {
      var i :| 0 <= i < |rows| && rows[i] == Find(rows, key).value;
      assert r[i] in r;
      forall e | e in rows && e.key != key
        ensures e in r
      {
        var j :| 0 <= j < |rows| && rows[j] == e;
        assert r[j] == e;
      }
    } else {
      assert r[|rows|] in r;
    }
  }

  /** Deleting the first row of a map by its key leaves the others. */
  lemma {:induction false} DropFirst<V(!new)>(rows: seq<Entry<V>>)
    requires DistinctKeys(rows) && rows != []
    ensures Without(rows, rows[0].key) == rows[1..]
  {
    if |rows| > 1 {
      var n := |rows| - 1;
      DropFirst(rows[..n]);
      assert rows[1..] == rows[..n][1..] + [rows[n]];
    }
  }

  lemma OrderedPush<V(!new)>(rows: seq<Entry<V>>, part: seq<Entry<V>>, born: map<string, nat>, ops: nat)
    requires rows != [] && Ordered(rows, born, ops) && Ordered(part, born, ops)
    requires forall e :: e in part ==> e in rows[..|rows| - 1]
    ensures Ordered(part + [rows[|rows| - 1]], born, ops)
  {
    var init := rows[..|rows| - 1];
    forall i | 0 <= i < |part|
      ensures born[part[i].key] < born[rows[|rows| - 1].key]
    {
      assert part[i] in part;
      var j :| 0 <= j < |init| && init[j] == part[i];
      assert rows[j] == part[i];
    }
  }

  lemma {:induction false} WithoutOrdered<V(!new)>(rows: seq<Entry<V>>, key: string, born: map<string, nat>, ops: nat)
    requires Ordered(rows, born, ops)
    ensures Ordered(Without(rows, key), born, ops)
  {
    if rows != [] {
      var init, last := rows[..|rows| - 1], rows[|rows| - 1];
      WithoutOrdered(init, key, born, ops);
      WithoutMembers(init, key);
      OrderedPush(rows, Without(init, key), born, ops);
    }
  }

  lemma {:induction false} AliveOrdered<V(!new)>(rows: seq<Entry<V>>, now: int, born: map<string, nat>, ops: nat)
    requires Ordered(rows, born, ops)
    ensures Ordered(Alive(rows, now), born, ops)
  {
    if rows != [] {
      var init, last := rows[..|rows| - 1], rows[|rows| - 1];
      AliveOrdered(init, now, born, ops);
      AliveMembers(init, now);
      OrderedPush(rows, Alive(init, now), born, ops);
    }
  }

  // ----- whole runs, beside a map without a cap -----

  datatype Cell<V> = Cell(value: V, expiresAt: int)

  datatype Op<V> =
    | GetOp(key: string)
    | SetOp(key: string, value: V, ttl: int, gcNow: int)
    | DeleteOp(key: string)

  datatype Event<V> = Event(op: Op<V>, now: int)

  /** The store's rows, the uncapped map that saw the same operations, the operation that inserted
      each key, the number of operations, the last clock reading, and whether a row was evicted. */
  datatype System<V> = System(
    rows: seq<Entry<V>>,
    ideal: map<string, Cell<V>>,
    born: map<string, nat>,
    ops: nat,
    clock: int,
    evicted: bool)

  function IdealAnswer<V(!new)>(ideal: map<string, Cell<V>>, key: string, now: int): Option<V> {
    if key in ideal && ideal[key].expiresAt >= now then Some(ideal[key].value) else None
  }

  function SetStep<V(!new)>(s: System<V>, cap: nat, key: string, value: V, ttl: int, gcNow: int, now: int)
    : System<V>
  {
    System(AfterSet(s.rows, cap, key, value, ttl, gcNow, now),
           s.ideal[key := Cell(value, now + ttl)],
           if Find(RoomFor(s.rows, cap, key, gcNow), key).Some? then s.born else s.born[key := s.ops],
           s.ops + 1,
           now,
           s.evicted || Evicts(s.rows, cap, key, gcNow))
  }

  function Step<V(!new)>(s: System<V>, cap: nat, e: Event<V>): System<V> {
    match e.op
    case GetOp(key) =>
      System(AfterGet(s.rows, key, e.now), s.ideal, s.born, s.ops + 1, e.now, s.evicted)
    case SetOp(key, value, ttl, gcNow) => SetStep(s, cap, key, value, ttl, gcNow, e.now)
    case DeleteOp(key) =>
      System(Without(s.rows, key), s.ideal - {key}, s.born, s.ops + 1, e.now, s.evicted)
  }

  /** The clock does not run backwards, and the key is not empty. */
  ghost predicate Allowed<V(!new)>(s: System<V>, e: Event<V>) {
    && e.op.key != ""
    && s.clock <= e.now
    && (e.op.SetOp? ==> s.clock <= e.op.gcNow <= e.now)
  }

  ghost predicate Ordered<V(!new)>(rows: seq<Entry<V>>, born: map<string, nat>, ops: nat) {
    && (forall i :: 0 <= i < |rows| ==> rows[i].key in born && born[rows[i].key] < ops)
    && (forall i, j :: 0 <= i < j < |rows| ==> born[rows[i].key] < born[rows[j].key])
  }

  /** Every row is what the uncapped map holds. */
  ghost predicate Agrees<V(!new)>(rows: seq<Entry<V>>, ideal: map<string, Cell<V>>) {
    forall e :: e in rows ==> e.key != "" && e.key in ideal && ideal[e.key] == Cell(e.value, e.expiresAt)
  }

  /** Everything in the uncapped map that has not expired has a row. */
  ghost predicate Complete<V(!new)>(rows: seq<Entry<V>>, ideal: map<string, Cell<V>>, clock: int) {
    forall k :: k in ideal && ideal[k].expiresAt >= clock ==> Find(rows, k).Some?
  }

  ghost predicate Inv<V(!new)>(s: System<V>, cap: nat) {
    && |s.rows| <= cap
    && Ordered(s.rows, s.born, s.ops)
    && Agrees(s.rows, s.ideal)
    && (!s.evicted ==> Complete(s.rows, s.ideal, s.clock))
  }

  function Start<V(!new)>(clock: int): System<V> {
    System([], map[], map[], 0, clock, false)
  }

  lemma GetKeepsInv<V(!new)>(s: System<V>, cap: nat, e: Event<V>)
    requires Inv(s, cap) && Allowed(s, e) && e.op.GetOp?
    ensures Inv(Step(s, cap, e), cap)
  {
    WithoutOrdered(s.rows, e.op.key, s.born, s.ops);
    WithoutMembers(s.rows, e.op.key);
    FindWithout(s.rows, e.op.key);
  }

  lemma DeleteKeepsInv<V(!new)>(s: System<V>, cap: nat, e: Event<V>)
    requires Inv(s, cap) && Allowed(s, e) && e.op.DeleteOp?
    ensures Inv(Step(s, cap, e), cap)
  {
    hide Ordered, Agrees, Complete, Without;
    WithoutOrdered(s.rows, e.op.key, s.born, s.ops);
    WithoutMembers(s.rows, e.op.key);
    OrderedLater(Without(s.rows, e.op.key), s.born, s.ops);
    WithoutAgrees(s.rows, s.ideal, e.op.key);
    if !s.evicted {
      WithoutComplete(s.rows, s.ideal, e.op.key, s.clock, e.now);
    }
  }

  lemma OrderedLater<V(!new)>(rows: seq<Entry<V>>, born: map<string, nat>, ops: nat)
    requires Ordered(rows, born, ops)
    ensures Ordered(rows, born, ops + 1)
  {
  }

  lemma WithoutAgrees<V(!new)>(rows: seq<Entry<V>>, ideal: map<string, Cell<V>>, key: string)
    requires Agrees(rows, ideal)
    ensures Agrees(Without(rows, key), ideal - {key})
  {
    hide Without;
    WithoutMembers(rows, key);
  }

  lemma WithoutComplete<V(!new)>(rows: seq<Entry<V>>, ideal: map<string, Cell<V>>, key: string, clock: int, now: int)
    requires Complete(rows, ideal, clock) && clock <= now
    ensures Complete(Without(rows, key), ideal - {key}, now)
  {
    hide Without, Find;
    FindWithout(rows, key);
  }

  lemma FindWithout<V(!new)>(rows: seq<Entry<V>>, key: string)
    ensures forall k :: k != key ==> Find(Without(rows, key), k).Some? == Find(rows, k).Some?
  {
    WithoutMembers(rows, key);
    forall k | k != key
      ensures Find(Without(rows, key), k).Some? == Find(rows, k).Some?
    {
      if Find(rows, k).Some? {
        assert Find(rows, k).value in Without(rows, key);
      }
    }
  }

  lemma RoomKeepsOrder<V(!new)>(s: System<V>, cap: nat, key: string, gcNow: int)
    requires Inv(s, cap) && cap >= 1
    ensures var room := RoomFor(s.rows, cap, key, gcNow);
            && Ordered(room, s.born, s.ops)
            && (forall e :: e in room ==> e in s.rows)
            && |room| <= cap
            && (Find(room, key).None? ==> |room| < cap)
  {
    AliveOrdered(s.rows, gcNow, s.born, s.ops);
    AliveMembers(s.rows, gcNow);
  }

  lemma PutKeepsOrder<V(!new)>(room: seq<Entry<V>>, key: string, value: V, expiresAt: int, born: map<string, nat>, ops: nat)
    requires Ordered(room, born, ops)
    ensures var born' := if Find(room, key).Some? then born else born[key := ops];
            Ordered(Put(room, key, value, expiresAt), born', ops + 1)
  {
    PutKeys(room, key, value, expiresAt);
    hide Put, Find;
  }

  /** A write keeps the keys in their places, and a new key comes last. */
  lemma PutKeys<V(!new)>(room: seq<Entry<V>>, key: string, value: V, expiresAt: int)
    ensures var r := Put(room, key, value, expiresAt);
            && |r| == |room| + (if Find(room, key).Some? then 0 else 1)
            && (forall i :: 0 <= i < |room| ==> r[i].key == room[i].key)
            && (Find(room, key).None? ==>
                  r[|room|].key == key && forall i :: 0 <= i < |room| ==> room[i].key != key)
  {
  }

  lemma PutAgrees<V(!new)>(room: seq<Entry<V>>, ideal: map<string, Cell<V>>, key: string, value: V, expiresAt: int)
    requires Agrees(room, ideal) && key != ""
    ensures Agrees(Put(room, key, value, expiresAt), ideal[key := Cell(value, expiresAt)])
  {
    PutFacts(room, key, value, expiresAt);
  }

  lemma PutCompletes<V(!new)>(room: seq<Entry<V>>, ideal: map<string, Cell<V>>, key: string, value: V, expiresAt: int,
                              clock: int)
    requires forall k :: k != key && k in ideal && ideal[k].expiresAt >= clock ==> Find(room, k).Some?
    ensures Complete(Put(room, key, value, expiresAt), ideal[key := Cell(value, expiresAt)], clock)
  {
    PutFacts(room, key, value, expiresAt);
    var rows := Put(room, key, value, expiresAt);
    forall k | k != key && k in ideal && ideal[k].expiresAt >= clock
      ensures Find(rows, k).Some?
    {
      assert Find(room, k).value in rows;
    }
  }

  lemma AliveStaysComplete<V(!new)>(s: System<V>, cap: nat, gcNow: int)
    requires Inv(s, cap) && !s.evicted && s.clock <= gcNow
    ensures Complete(Alive(s.rows, gcNow), s.ideal, gcNow)
  {
    AliveMembers(s.rows, gcNow);
    forall k | k in s.ideal && s.ideal[k].expiresAt >= gcNow
      ensures Find(Alive(s.rows, gcNow), k).Some?
    {
      assert Find(s.rows, k).value in Alive(s.rows, gcNow);
    }
  }

  lemma SetKeepsInv<V(!new)>(s: System<V>, cap: nat, key: string, value: V, ttl: int, gcNow: int, now: int)
    requires Inv(s, cap) && cap >= 1 && key != "" && s.clock <= gcNow <= now
    ensures Inv(SetStep(s, cap, key, value, ttl, gcNow, now), cap)
  {
    hide RoomFor, Put, Find, Alive, Ordered, Agrees, Complete;
    var room := RoomFor(s.rows, cap, key, gcNow);
    PutIntoRoom(s, cap, key, value, now + ttl, gcNow, now);
  }

  lemma PutIntoRoom<V(!new)>(s: System<V>, cap: nat, key: string, value: V, expiresAt: int, gcNow: int, now: int)
    requires Inv(s, cap) && cap >= 1 && key != "" && s.clock <= gcNow <= now
    ensures var room := RoomFor(s.rows, cap, key, gcNow);
            var rows := Put(room, key, value, expiresAt);
            var ideal := s.ideal[key := Cell(value, expiresAt)];
            && |rows| <= cap
            && Ordered(rows, if Find(room, key).Some? then s.born else s.born[key := s.ops], s.ops + 1)
            && Agrees(rows, ideal)
            && (!s.evicted && !Evicts(s.rows, cap, key, gcNow) ==> Complete(rows, ideal, now))
  {
    var room := RoomFor(s.rows, cap, key, gcNow);
    RoomKeepsOrder(s, cap, key, gcNow);
    PutKeepsOrder(room, key, value, expiresAt, s.born, s.ops);
    PutAgrees(room, s.ideal, key, value, expiresAt);
    PutKeys(room, key, value, expiresAt);
    if !s.evicted && !Evicts(s.rows, cap, key, gcNow) {
      AliveStaysComplete(s, cap, gcNow);
      PutCompletes(room, s.ideal, key, value, expiresAt, now);
    }
  }

  lemma StepKeepsInv<V(!new)>(s: System<V>, cap: nat, e: Event<V>)
    requires Inv(s, cap) && cap >= 1 && Allowed(s, e)
    ensures Inv(Step(s, cap, e), cap)
  {
    if e.op.SetOp? {
      SetKeepsInv(s, cap, e.op.key, e.op.value, e.op.ttl, e.op.gcNow, e.now);
    } else if e.op.GetOp? {
      GetKeepsInv(s, cap, e);
    } else {
      DeleteKeepsInv(s, cap, e);
    }
  }

  function StateAfter<V(!new)>(clock: int, cap: nat, events: seq<Event<V>>): System<V> {
    if events == [] then Start(clock)
    else Step(StateAfter(clock, cap, events[..|events| - 1]), cap, events[|events| - 1])
  }

  ghost predicate AllowedRun<V(!new)>(clock: int, cap: nat, events: seq<Event<V>>) {
    forall k :: 0 <= k < |events| ==> Allowed(StateAfter(clock, cap, events[..k]), events[k])
  }

  lemma {:induction false} RunKeepsInv<V(!new)>(clock: int, cap: nat, events: seq<Event<V>>)
    requires cap >= 1 && AllowedRun(clock, cap, events)
    ensures Inv(StateAfter(clock, cap, events), cap)
  {
    if events != [] {
      var init := events[..|events| - 1];
      assert forall k :: 0 <= k < |init| ==> init[..k] == events[..k];
      RunKeepsInv(clock, cap, init);
      StepKeepsInv(StateAfter(clock, cap, init), cap, events[|events| - 1]);
    }
  }

  /** At any point of a run: the cap holds; a value that is handed out is the one the uncapped map
      holds, so never an expired, deleted or overwritten one; and before the first eviction the
      two maps answer alike. */
  lemma RunAnswersLikeUncapped<V(!new)>(clock: int, cap: nat, events: seq<Event<V>>, key: string, now: int)
    requires cap >= 1 && AllowedRun(clock, cap, events)
    requires StateAfter(clock, cap, events).clock <= now
    ensures var s := StateAfter(clock, cap, events);
            && |s.rows| <= cap
            && (GetAnswer(s.rows, key, now).Some? ==> GetAnswer(s.rows, key, now) == IdealAnswer(s.ideal, key, now))
            && (!s.evicted ==> GetAnswer(s.rows, key, now) == IdealAnswer(s.ideal, key, now))
  {
    RunKeepsInv(clock, cap, events);
  }

  ghost predicate Older<V(!new)>(s: System<V>, k1: string, k2: string) {
    k1 in s.born && k2 in s.born && s.born[k1] < s.born[k2]
  }

  /** A write evicts at most one row: the one whose key was inserted first. It happens only with at
      least cap live rows under other keys, and those but the first all stay. */
  lemma EvictsOldestOnly<V(!new)>(clock: int, cap: nat, events: seq<Event<V>>, e: Event<V>)
    requires cap >= 1 && AllowedRun(clock, cap, events)
    requires Allowed(StateAfter(clock, cap, events), e) && e.op.SetOp?
    ensures var s := StateAfter(clock, cap, events);
            var live := Alive(s.rows, e.op.gcNow);
            var room := RoomFor(s.rows, cap, e.op.key, e.op.gcNow);
            && (room != live <==> |live| == cap && forall r :: r in live ==> r.key != e.op.key)
            && (room != live ==>
                  && room == live[1..]
                  && forall r :: r in room ==> Older(s, live[0].key, r.key))
  {
    var s := StateAfter(clock, cap, events);
    RunKeepsInv(clock, cap, events);
    AliveMembers(s.rows, e.op.gcNow);
    AliveOrdered(s.rows, e.op.gcNow, s.born, s.ops);
    var live := Alive(s.rows, e.op.gcNow);
    if live != [] {
      assert live[0] in live;
      assert |live[1..]| != |live|;
    }
  }

  /** Where the bound needs its assumptions: one write leaves the map within its cap exactly when
      the cap is positive and the row to evict, if one is due, has a non-empty key. */
  lemma WriteStaysWithinCap<V(!new)>(rows: seq<Entry<V>>, cap: nat, key: string, value: V, ttl: int, gcNow: int, now: int)
    requires |rows| <= cap
    ensures |AfterSet(rows, cap, key, value, ttl, gcNow, now)| <= cap <==>
            && cap >= 1
            && (var live := Alive(rows, gcNow);
                |live| == cap && Find(live, key).None? ==> live[0].key != "")
  {
    AliveMembers(rows, gcNow);
    var room := RoomFor(rows, cap, key, gcNow);
    if Find(room, key).Some? {
      assert Find(room, key).value in room;
      assert room != [];
    }
  }

  // ----- stores that grow past their cap -----

  /** A cap of 0: the first write finds nothing to evict. */
  lemma NoCapIsExceeded()
    ensures |Step(Start<int>(0), 0, Event(SetOp("a", 1, 60, 0), 0)).rows| == 1
  {
    var rows: seq<Entry<int>> := [];
    assert Alive(rows, 0) == [];
  }

  /** An oldest key that is the empty string is never evicted. */
  lemma EmptyKeyIsKept()
    ensures var s := Step(Start<int>(0), 1, Event(SetOp("", 1, 60, 0), 0));
            |Step(s, 1, Event(SetOp("a", 2, 60, 0), 0)).rows| == 2
  {
    var none: seq<Entry<int>> := [];
    assert Alive(none, 0) == [];
    var one := Step(Start<int>(0), 1, Event(SetOp("", 1, 60, 0), 0)).rows;
    assert one == [Entry("", 1, 60)];
    assert one[..0] == [];
    assert Alive(one, 0) == one;
    assert Find(one, "a") == None;
  }
}

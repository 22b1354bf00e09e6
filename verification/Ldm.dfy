/** Expiry in the local dynamic map: the dictionary database (dictionary_database.py) and the
    maintenance loop that deletes expired records by value (ldm_maintenance.py). */
module LocalDynamicMap {
  /** A stored data object; content stands for all that is compared besides the times. */
  datatype Record = Record(timeValidity: int, timestamp: int, content: int)

  /** A dictionary in insertion order. */
  datatype Item = Item(id: nat, record: Record)

  predicate UniqueIds(db: seq<Item>) {
    forall i, j | 0 <= i < j < |db| :: db[i].id != db[j].id
  }

  /** Dictionary assignment: an existing key keeps its place. */
  function Put(db: seq<Item>, id: nat, r: Record): seq<Item> {
    if db == [] then [Item(id, r)]
    else if db[0].id == id then [Item(id, r)] + db[1..]
    else [db[0]] + Put(db[1..], id, r)
  }

  /** Deletion of the first record with the value. */
  function RemoveFirst(db: seq<Item>, r: Record): seq<Item> {
    if db == [] then []
    else if db[0].record == r then db[1..]
    else [db[0]] + RemoveFirst(db[1..], r)
  }

  function Records(db: seq<Item>): seq<Record> {
    seq(|db|, i requires 0 <= i < |db| => db[i].record)
  }

  predicate Expired(r: Record, now: int) {
    r.timeValidity * 1000 + r.timestamp < now
  }

  class DictionaryDatabase {
    var database: seq<Item>
    var nextId: nat

    ghost predicate Valid()
      reads this
    {
      UniqueIds(database)
    }

    constructor ()
      ensures Valid() && database == [] && nextId == 0
    {
      database, nextId := [], 0;
    }

    method Insert(r: Record) returns (id: nat)
      requires Valid()
      modifies this
      ensures Valid() && id == old(nextId) && nextId == id + 1 && database == Put(old(database), id, r)
    {
      id := nextId;
      PutUnique(database, id, r);
      database := Put(database, id, r);
      nextId := nextId + 1;
    }

    method Update(r: Record, id: nat)
      requires Valid()
      modifies this`database
      ensures Valid() && database == Put(old(database), id, r)
    {
      PutUnique(database, id, r);
      database := Put(database, id, r);
    }

    method Remove(r: Record) returns (removed: bool)
      requires Valid()
      modifies this`database
      ensures Valid() && database == RemoveFirst(old(database), r)
      ensures removed <==> r in Records(old(database))
    {
      var i := 0;
      while i < |database|
        invariant 0 <= i <= |database| && database == old(database)
        invariant forall j | 0 <= j < i :: database[j].record != r
      {
        if database[i].record == r {
          RemoveFirstAt(database, r, i);
          assert Records(database)[i] == r;
          database := database[..i] + database[i + 1..];
          return true;
        }
        i := i + 1;
      }
      RemoveAbsent(database, r);
      removed := false;
    }

    method All() returns (records: seq<Record>)
      ensures records == Records(database)
    {
      records := seq(|database|, i requires 0 <= i < |database| reads this => database[i].record);
    }
  }

  class LdmMaintenance {
    const dataContainers: DictionaryDatabase

    constructor (db: DictionaryDatabase)
      ensures dataContainers == db
    {
      dataContainers := db;
    }

    /** The clock is read anew for every record of the snapshot. */
    method CheckAndDeleteTimeValidity(clock: seq<int>) returns (expired: seq<Record>)
      requires dataContainers.Valid() && |clock| == |dataContainers.database|
      modifies dataContainers`database
      ensures dataContainers.Valid()
      ensures dataContainers.database == Swept(old(dataContainers.database), clock)
      ensures expired == ExpiredRecords(old(dataContainers.database), clock)
    {
      ghost var before := dataContainers.database;
      var snapshot := dataContainers.All();
      expired := [];
      var i := 0;
      assert before[..0] == [] && clock[..0] == [];
      while i < |snapshot|
        invariant 0 <= i <= |snapshot|
        invariant dataContainers.Valid() && dataContainers.database == SweptUpTo(before, clock, i)
        invariant expired == ExpiredRecords(before[..i], clock[..i])
      {
        assert before[..i + 1][..i] == before[..i] && clock[..i + 1][..i] == clock[..i];
        if Expired(snapshot[i], clock[i]) {
          var _ := dataContainers.Remove(snapshot[i]);
          expired := expired + [snapshot[i]];
        }
        i := i + 1;
      }
      assert before[..i] == before && clock[..i] == clock;
    }
  }

  // ---------------------------------------------------------------- the dictionary

  lemma {:induction false} PutUnique(db: seq<Item>, id: nat, r: Record)
    requires UniqueIds(db)
    ensures UniqueIds(Put(db, id, r))
    ensures forall x | x in Put(db, id, r) :: x == Item(id, r) || x in db
  {
    if db != [] && db[0].id != id {
      PutUnique(db[1..], id, r);
      var rest := Put(db[1..], id, r);
      forall k | 0 <= k < |rest| ensures rest[k].id != db[0].id {
        assert rest[k] in rest;
      }
    }
  }

  /** Assignment changes the record of a known id in its place, and puts a new id last. */
  lemma {:induction false} PutExactly(db: seq<Item>, id: nat, r: Record)
    requires UniqueIds(db)
    ensures var known := exists i | 0 <= i < |db| :: db[i].id == id;
            && |Put(db, id, r)| == |db| + (if known then 0 else 1)
            && (forall i | 0 <= i < |db| :: Put(db, id, r)[i] == if db[i].id == id then Item(id, r) else db[i])
            && (!known ==> Put(db, id, r)[|db|] == Item(id, r))
  {
    if db != [] && db[0].id != id {
      var rest := db[1..];
      assert forall i | 1 <= i < |db| :: db[i] == rest[i - 1];
      PutExactly(rest, id, r);
    }
  }

  lemma {:induction false} RemoveFirstAt(db: seq<Item>, r: Record, i: nat)
    requires i < |db| && db[i].record == r && forall j | 0 <= j < i :: db[j].record != r
    ensures RemoveFirst(db, r) == db[..i] + db[i + 1..]
  {
    if i > 0 {
      RemoveFirstAt(db[1..], r, i - 1);
    }
  }

  lemma {:induction false} RemoveAbsent(db: seq<Item>, r: Record)
    requires forall j | 0 <= j < |db| :: db[j].record != r
    ensures RemoveFirst(db, r) == db
  {
    if db != [] {
      RemoveAbsent(db[1..], r);
    }
  }

  // ---------------------------------------------------------------- the sweep

  /** The database after the first n records of the snapshot were looked at. */
  function SweptUpTo(db: seq<Item>, clock: seq<int>, n: nat): seq<Item>
    requires n <= |db| == |clock|
  {
    if n == 0 then db
    else
      var before := SweptUpTo(db, clock, n - 1);
      if Expired(db[n - 1].record, clock[n - 1]) then RemoveFirst(before, db[n - 1].record) else before
  }

  function Swept(db: seq<Item>, clock: seq<int>): seq<Item>
    requires |db| == |clock|
  {
    SweptUpTo(db, clock, |db|)
  }

  function ExpiredRecords(db: seq<Item>, clock: seq<int>): seq<Record>
    requires |db| == |clock|
  {
    if db == [] then []
    else
      var n := |db| - 1;
      ExpiredRecords(db[..n], clock[..n]) + if Expired(db[n].record, clock[n]) then [db[n].record] else []
  }

  /** The records unexpired when looked at, with their ids, in order. */
  function Kept(db: seq<Item>, clock: seq<int>): seq<Item>
    requires |db| == |clock|
  {
    if db == [] then []
    else
      var n := |db| - 1;
      Kept(db[..n], clock[..n]) + if Expired(db[n].record, clock[n]) then [] else [db[n]]
  }

  /** An expired record has an equal one before it that had not expired when looked at. */
  predicate Outlived(db: seq<Item>, clock: seq<int>, j: nat)
    requires j < |db| == |clock|
  {
    Expired(db[j].record, clock[j]) &&
    exists i | 0 <= i < j :: db[i].record == db[j].record && !Expired(db[i].record, clock[i])
  }

  lemma {:induction false} KeptAre(db: seq<Item>, clock: seq<int>, n: nat)
    requires n <= |db| == |clock|
    ensures forall x | x in Kept(db[..n], clock[..n]) :: exists i | 0 <= i < n :: db[i] == x && !Expired(db[i].record, clock[i])
    ensures forall i | 0 <= i < n && !Expired(db[i].record, clock[i]) :: db[i] in Kept(db[..n], clock[..n])
  {
    if n > 0 {
      KeptAre(db, clock, n - 1);
      assert db[..n][..n - 1] == db[..n - 1] && clock[..n][..n - 1] == clock[..n - 1];
    }
  }

  /** As long as no record was outlived by an equal one before it, the sweep is a filter. */
  lemma {:induction false} SweepSoFar(db: seq<Item>, clock: seq<int>, n: nat)
    requires n <= |db| == |clock| && forall j | 0 <= j < n :: !Outlived(db, clock, j)
    ensures SweptUpTo(db, clock, n) == Kept(db[..n], clock[..n]) + db[n..]
  {
    if n == 0 {
      assert db[..0] == [] && db[0..] == db;
    } else {
      var r, kept := db[n - 1].record, Kept(db[..n - 1], clock[..n - 1]);
      SweepSoFar(db, clock, n - 1);
      assert db[..n][..n - 1] == db[..n - 1] && clock[..n][..n - 1] == clock[..n - 1];
      assert db[n - 1..] == [db[n - 1]] + db[n..];
      if Expired(r, clock[n - 1]) {
        KeptAre(db, clock, n - 1);
        assert !Outlived(db, clock, n - 1);
        forall j | 0 <= j < |kept| ensures kept[j].record != r {
          assert kept[j] in kept;
        }
        var rest := kept + db[n - 1..];
        RemoveFirstAt(rest, r, |kept|);
        assert rest[..|kept|] == kept && rest[|kept| + 1..] == db[n..];
      } else {
        assert kept + db[n - 1..] == kept + [db[n - 1]] + db[n..];
      }
    }
  }

  lemma {:induction false} RemoveFirstWithin(db: seq<Item>, r: Record, x: Item)
    requires x in RemoveFirst(db, r)
    ensures x in db
  {
    if db[0].record != r && x != db[0] {
      RemoveFirstWithin(db[1..], r, x);
    }
  }

  lemma {:induction false} NothingComesBack(db: seq<Item>, clock: seq<int>, m: nat, n: nat, x: Item)
    requires m <= n <= |db| == |clock| && x in SweptUpTo(db, clock, n)
    ensures x in SweptUpTo(db, clock, m)
  {
    if m < n {
      if Expired(db[n - 1].record, clock[n - 1]) {
        RemoveFirstWithin(SweptUpTo(db, clock, n - 1), db[n - 1].record, x);
      }
      NothingComesBack(db, clock, m, n - 1, x);
    }
  }

  /** Where a kept record equals the one to delete, the first such kept record is deleted. */
  lemma {:induction false} KeptLoses(kept: seq<Item>, rest: seq<Item>, r: Record) returns (x: Item)
    requires exists i | 0 <= i < |kept| :: kept[i].record == r
    requires UniqueIds(kept + rest)
    ensures x in kept && x !in RemoveFirst(kept + rest, r)
  {
    var i :| 0 <= i < |kept| && kept[i].record == r && forall j | 0 <= j < i :: kept[j].record != r by {
      FirstWith(kept, r);
    }
    var all := kept + rest;
    RemoveFirstAt(all, r, i);
    x := kept[i];
    assert all[i] == x;
  }

  lemma {:induction false} FirstWith(kept: seq<Item>, r: Record)
    requires exists i | 0 <= i < |kept| :: kept[i].record == r
    ensures exists i | 0 <= i < |kept| :: kept[i].record == r && forall j | 0 <= j < i :: kept[j].record != r
  {
    var i :| 0 <= i < |kept| && kept[i].record == r;
    if exists j | 0 <= j < i :: kept[j].record == r {
      FirstWith(kept[..i], r);
      var k :| 0 <= k < i && kept[..i][k].record == r && forall j | 0 <= j < k :: kept[..i][j].record != r;
      assert kept[k].record == r && forall j | 0 <= j < k :: kept[j].record == kept[..i][j].record;
    }
  }

  lemma {:induction false} RemoveKeepsUnique(db: seq<Item>, r: Record)
    requires UniqueIds(db)
    ensures UniqueIds(RemoveFirst(db, r))
  {
    if db != [] && db[0].record != r {
      RemoveKeepsUnique(db[1..], r);
      var rest := RemoveFirst(db[1..], r);
      forall k | 0 <= k < |rest| ensures rest[k].id != db[0].id {
        RemoveFirstWithin(db[1..], r, rest[k]);
      }
    }
  }

  lemma {:induction false} SweepKeepsUnique(db: seq<Item>, clock: seq<int>, n: nat)
    requires n <= |db| == |clock| && UniqueIds(db)
    ensures UniqueIds(SweptUpTo(db, clock, n))
  {
    if n > 0 {
      SweepKeepsUnique(db, clock, n - 1);
      RemoveKeepsUnique(SweptUpTo(db, clock, n - 1), db[n - 1].record);
    }
  }

  lemma {:induction false} FirstOutlived(db: seq<Item>, clock: seq<int>, n: nat) returns (j: nat)
    requires n <= |db| == |clock| && exists i | 0 <= i < n :: Outlived(db, clock, i)
    ensures j < n && Outlived(db, clock, j) && forall i | 0 <= i < j :: !Outlived(db, clock, i)
  {
    hide Outlived;
    if exists i | 0 <= i < n - 1 :: Outlived(db, clock, i) {
      j := FirstOutlived(db, clock, n - 1);
    } else {
      j := n - 1;
    }
  }

  /** The first record that was outlived deletes the id of a kept one. */
  lemma OutlivedLosesKept(db: seq<Item>, clock: seq<int>, j: nat) returns (x: Item)
    requires j < |db| == |clock| && UniqueIds(db)
    requires Outlived(db, clock, j) && forall i | 0 <= i < j :: !Outlived(db, clock, i)
    ensures x in Kept(db, clock) && x !in Swept(db, clock)
  {
    var kept, r := Kept(db[..j], clock[..j]), db[j].record;
    SweepSoFar(db, clock, j);
    SweepKeepsUnique(db, clock, j);
    KeptAre(db, clock, j);
    var i :| 0 <= i < j && db[i].record == r && !Expired(db[i].record, clock[i]);
    var k :| 0 <= k < |kept| && kept[k] == db[i];
    x := KeptLoses(kept, db[j..], r);
    KeptAre(db, clock, |db|);
    assert db[..|db|] == db && clock[..|db|] == clock;
    if x in Swept(db, clock) {
      NothingComesBack(db, clock, j + 1, |db|, x);
    }
  }

  /** The sweep leaves exactly the records that had not expired when looked at, with their ids and
      in order, if and only if no expired record had an equal, unexpired one before it. */
  lemma SweepIsFilterExactly(db: seq<Item>, clock: seq<int>)
    requires |db| == |clock| && UniqueIds(db)
    ensures Swept(db, clock) == Kept(db, clock) <==> forall j | 0 <= j < |db| :: !Outlived(db, clock, j)
  {
    hide Outlived;
    if forall j | 0 <= j < |db| :: !Outlived(db, clock, j) {
      SweepSoFar(db, clock, |db|);
      assert db[..|db|] == db && clock[..|db|] == clock && db[|db|..] == [];
    } else {
      var j := FirstOutlived(db, clock, |db|);
      var _ := OutlivedLosesKept(db, clock, j);
    }
  }

  /** Two equal records that expire between the two readings of the clock: the second one's turn
      deletes the first, which had not expired when looked at. */
  lemma ClockPassesExpiry(r: Record, c0: int, c1: int)
    requires !Expired(r, c0) && Expired(r, c1)
    ensures var db, clock := [Item(0, r), Item(1, r)], [c0, c1];
            && Swept(db, clock) == [Item(1, r)] && Kept(db, clock) == [Item(0, r)] && ExpiredRecords(db, clock) == [r]
  {
    var db, clock := [Item(0, r), Item(1, r)], [c0, c1];
    var front, times := [Item(0, r)], [c0];
    assert db[..1] == front && clock[..1] == times;
    assert front[..0] == [] && times[..0] == [];
    assert Kept(front, times) == front && ExpiredRecords(front, times) == [];
    assert SweptUpTo(db, clock, 0) == db && SweptUpTo(db, clock, 1) == db;
  }

  lemma {:induction false} KeptAtFixedTime(db: seq<Item>, clock: seq<int>, now: int, x: Item)
    requires |db| == |clock| && forall i | 0 <= i < |clock| :: clock[i] == now
    ensures x in Kept(db, clock) <==> x in db && now <= x.record.timestamp + 1000 * x.record.timeValidity
  {
    if db != [] {
      var n := |db| - 1;
      KeptAtFixedTime(db[..n], clock[..n], now, x);
      assert db == db[..n] + [db[n]];
    }
  }

  /** At a fixed time that is always so, however many equal records there are: what is left are the
      records of which no more than timeValidity seconds have passed since their time stamp. */
  lemma SweepAtFixedTime(db: seq<Item>, clock: seq<int>, now: int)
    requires |db| == |clock| && UniqueIds(db) && forall i | 0 <= i < |clock| :: clock[i] == now
    ensures Swept(db, clock) == Kept(db, clock)
    ensures forall x :: x in Swept(db, clock) <==> x in db && now <= x.record.timestamp + 1000 * x.record.timeValidity
  {
    SweepIsFilterExactly(db, clock);
    forall x ensures x in Kept(db, clock) <==> x in db && now <= x.record.timestamp + 1000 * x.record.timeValidity {
      KeptAtFixedTime(db, clock, now, x);
    }
  }
}

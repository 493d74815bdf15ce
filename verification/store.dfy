/** The sighting log of vlp/vlp/main2.py: the `logs` table as an immutable
    sequence of records in insertion order, with `init_database` (seeding),
    `log_plate` (normalise, then insert or update) and `view_database`
    (listing). Connections, SQL text, commits and the surrogate `id` column
    are not part of the model; the timestamp is a parameter. */
module SightingStore {
  import opened Wrappers
  import opened Text

  /** Timestamp text as formatted by `strftime("%Y-%m-%d %H:%M:%S")`. */
  type Timestamp = string

  /** One row of `logs`. */
  datatype Sighting = Sighting(plateNumber: string, entryTime: Timestamp, lastEntryTime: Timestamp)

  /** The rows of `logs` in storage (insertion) order. */
  type Store = seq<Sighting>

  /** The error SQLite raises when an insert violates `UNIQUE`. */
  datatype DbError = IntegrityError

  /** The plate numbers present in the store. */
  function Plates(db: Store): set<string> {
    set i | 0 <= i < |db| :: db[i].plateNumber
  }

  /** The `UNIQUE` constraint on `plate_number`. */
  predicate UniquePlates(db: Store) {
    forall i, j :: 0 <= i < j < |db| ==> db[i].plateNumber != db[j].plateNumber
  }

  // ---------------------------------------------------------------------
  // Normalisation of the plate text
  // ---------------------------------------------------------------------

  /** `plate_number.replace(" ", "").upper()`: the key under which a
      reading is logged. It holds no space and no lower-case ASCII letter. */
  function Normalize(plate: string): (key: string)
    ensures ' ' !in key
    ensures forall i :: 0 <= i < |key| ==> !IsLowerAscii(key[i])
    ensures |key| <= |plate|
  {
    var spaceless := RemoveChar(plate, ' ');
    UpperKeepsSpaces(spaceless);
    Upper(spaceless)
  }

  /** Normalising twice is normalising once. */
  lemma NormalizeIdempotent(plate: string)
    ensures Normalize(Normalize(plate)) == Normalize(plate)
  {
    var key := Normalize(plate);
    assert RemoveChar(key, ' ') == key;
    assert Upper(key) == key;
  }

  /** Normalisation works character by character: it distributes over
      concatenation, and a lone space normalises to nothing. */
  lemma NormalizeAppend(a: string, b: string)
    ensures Normalize(a + b) == Normalize(a) + Normalize(b)
    ensures Normalize(" ") == []
  {
    RemoveCharAppend(a, b, ' ');
    UpperAppend(RemoveChar(a, ' '), RemoveChar(b, ' '));
    assert RemoveChar(" ", ' ') == [] by {
      assert " "[1..] == [];
    }
  }

  /** A space anywhere in the reading does not change the key. */
  lemma NormalizeIgnoresSpace(a: string, b: string)
    ensures Normalize(a + " " + b) == Normalize(a + b)
  {
    NormalizeAppend(a, " ");
    NormalizeAppend(a + " ", b);
    NormalizeAppend(a, b);
  }

  /** Upper-casing the reading first does not change the key. */
  lemma NormalizeIgnoresCase(plate: string)
    ensures Normalize(Upper(plate)) == Normalize(plate)
  {
    UpperCommutesWithRemoveSpace(plate);
  }

  lemma {:induction false} UpperCommutesWithRemoveSpace(s: string)
    ensures RemoveChar(Upper(s), ' ') == Upper(RemoveChar(s, ' '))
  {
    if |s| > 0 {
      var head, rest := [s[0]], s[1..];
      assert s == head + rest;
      UpperAppend(head, rest);
      RemoveCharAppend(Upper(head), Upper(rest), ' ');
      RemoveCharAppend(head, rest, ' ');
      UpperAppend(RemoveChar(head, ' '), RemoveChar(rest, ' '));
      UpperCommutesWithRemoveSpace(rest);
      UpperCommutesOnChar(s[0]);
    }
  }

  lemma UpperCommutesOnChar(c: char)
    ensures RemoveChar(Upper([c]), ' ') == Upper(RemoveChar([c], ' '))
  {
    assert Upper([c]) == [UpperChar(c)];
    assert [c][1..] == [] && [UpperChar(c)][1..] == [];
  }

  /** The two spellings of the same plate, "RJ 14 cv 0002" and
      "RJ14CV0002", hit the same record. The readings are passed in rather
      than written as literals, so that the verifier does not unroll the
      recursive string functions on them. */
  lemma SpacedLowerCaseReadingSameKey(spaced: string, compact: string)
    requires spaced == "RJ" + " " + "14" + " " + "cv" + " " + "0002"
    requires compact == "RJ" + "14" + "CV" + "0002"
    ensures Normalize(spaced) == Normalize(compact) == compact
  {
    var lower := "RJ" + "14" + "cv" + "0002";
    NormalizeIgnoresSpaces("RJ", "14", "cv", "0002");
    UpperExample(lower, compact);
    NormalizeIgnoresCase(lower);
    NormalizeFixedPoint(compact);
  }

  /** Three spaces between four groups, as on a printed plate. */
  lemma NormalizeIgnoresSpaces(a: string, b: string, c: string, d: string)
    ensures Normalize(a + " " + b + " " + c + " " + d) == Normalize(a + b + c + d)
  {
    NormalizeIgnoresSpace(a, b);
    NormalizeJoin(a + " " + b, a + b, c);
    NormalizeJoin(a + " " + b + " " + c, a + b + c, d);
  }

  /** Readings with equal keys still have equal keys after one of them gains
      a space and both gain the same group. */
  lemma NormalizeJoin(x: string, y: string, g: string)
    requires Normalize(x) == Normalize(y)
    ensures Normalize(x + " " + g) == Normalize(y + g)
  {
    NormalizeIgnoresSpace(x, g);
    NormalizeAppend(x, g);
    NormalizeAppend(y, g);
  }

  lemma UpperExample(lower: string, upper: string)
    requires lower == "RJ" + "14" + "cv" + "0002" && upper == "RJ" + "14" + "CV" + "0002"
    ensures Upper(lower) == upper
  {
    assert UpperChar('c') == 'C' && UpperChar('v') == 'V';
    assert forall i :: 0 <= i < |lower| ==> Upper(lower)[i] == upper[i];
  }

  /** The only characters that upper-case to `B` are `b` and `B`, so a
      reading holding neither has a key without `B`. */
  lemma NormalizeKeepsOutB(plate: string)
    requires 'b' !in plate && 'B' !in plate
    ensures 'B' !in Normalize(plate)
  {
    var spaceless := RemoveChar(plate, ' ');
    RemoveCharKeepsOthers(plate, ' ', 'b');
    RemoveCharKeepsOthers(plate, ' ', 'B');
    assert 'b' !in spaceless && 'B' !in spaceless;
    var key := Normalize(plate);
    forall i | 0 <= i < |key| ensures key[i] != 'B' {
      assert spaceless[i] != 'b' && spaceless[i] != 'B';
    }
  }

  /** A key without spaces or lower-case ASCII letters normalises to itself. */
  lemma NormalizeFixedPoint(key: string)
    requires ' ' !in key
    requires forall i :: 0 <= i < |key| ==> !IsLowerAscii(key[i])
    ensures Normalize(key) == key
  {
    assert Upper(key) == key;
  }

  // ---------------------------------------------------------------------
  // Lookup and insertion
  // ---------------------------------------------------------------------

  /** `SELECT * FROM logs WHERE plate_number = ?` followed by `fetchone()`:
      the position of the first row with that plate, if any. */
  function Lookup(db: Store, key: string): (r: Option<nat>)
    ensures r.None? <==> key !in Plates(db)
    ensures r.Some? ==> r.value < |db| && db[r.value].plateNumber == key
    ensures r.Some? ==> forall j :: 0 <= j < r.value ==> db[j].plateNumber != key
  {
    if |db| == 0 then None
    else if db[0].plateNumber == key then Some(0)
    else
      match Lookup(db[1..], key)
      case None =>
        assert Plates(db) == {db[0].plateNumber} + Plates(db[1..]);
        None
      case Some(i) => Some(i + 1)
  }

  /** `INSERT INTO logs ...`: a new row at the end, or `IntegrityError`
      when the plate is already present. */
  function Insert(db: Store, v: Sighting): (r: Result<Store, DbError>)
    ensures r.Failure? <==> v.plateNumber in Plates(db)
    ensures r.Success? ==> |r.value| == |db| + 1 && r.value[..|db|] == db && r.value[|db|] == v
  {
    if v.plateNumber in Plates(db) then Failure(IntegrityError) else Success(db + [v])
  }

  lemma InsertPlates(db: Store, v: Sighting)
    requires v.plateNumber !in Plates(db)
    ensures Plates(db + [v]) == Plates(db) + {v.plateNumber}
  {
    var r := db + [v];
    forall p | p in Plates(r) ensures p in Plates(db) + {v.plateNumber} {
      var i :| 0 <= i < |r| && r[i].plateNumber == p;
      if i < |db| {
        assert db[i].plateNumber == p;
      }
    }
    forall p | p in Plates(db) ensures p in Plates(r) {
      var i :| 0 <= i < |db| && db[i].plateNumber == p;
      assert r[i].plateNumber == p;
    }
    assert r[|db|].plateNumber == v.plateNumber;
  }

  /** A successful insert keeps the `UNIQUE` constraint. */
  lemma InsertKeepsUnique(db: Store, v: Sighting)
    ensures UniquePlates(db) && Insert(db, v).Success? ==> UniquePlates(Insert(db, v).value)
  {
    if UniquePlates(db) && v.plateNumber !in Plates(db) {
      var r := db + [v];
      forall i, j | 0 <= i < j < |r| ensures r[i].plateNumber != r[j].plateNumber {
        if j == |db| {
          assert db[i].plateNumber in Plates(db);
        }
      }
    }
  }

  // ---------------------------------------------------------------------
  // log_plate
  // ---------------------------------------------------------------------

  /** What `log_plate` returns, together with the table it leaves. */
  datatype LogOutcome = LogOutcome(isNew: bool, lastEntry: Option<Timestamp>, db: Store)

  /** `log_plate(plate_number)` at time `now`. An unseen key gets one new
      row with both timestamps `now` and the answer `(True, None)`. A known
      key answers `(False, t)` with `t` the `last_entry_time` of the row
      `fetchone` returned; the `UPDATE` then sets `last_entry_time` to `now`
      in every row with that key and changes nothing else. */
  function LogPlate(db: Store, plate: string, now: Timestamp): (r: LogOutcome)
    ensures var key := Normalize(plate);
      r.isNew <==> key !in Plates(db)
    ensures var key := Normalize(plate);
      r.isNew ==>
        && r.lastEntry == None
        && |r.db| == |db| + 1
        && r.db[..|db|] == db
        && r.db[|db|] == Sighting(key, now, now)
    ensures var key := Normalize(plate);
      !r.isNew ==>
        && |r.db| == |db|
        && (exists i :: 0 <= i < |db| && db[i].plateNumber == key && r.lastEntry == Some(db[i].lastEntryTime))
        && (forall j :: 0 <= j < |db| && db[j].plateNumber != key ==> r.db[j] == db[j])
        && (forall j :: 0 <= j < |db| && db[j].plateNumber == key ==>
              r.db[j] == Sighting(key, db[j].entryTime, now))
  {
    var key := Normalize(plate);
    match Lookup(db, key)
    case None =>
      LogOutcome(true, None, db + [Sighting(key, now, now)])
    case Some(i) =>
      LogOutcome(false, Some(db[i].lastEntryTime), SetLastEntry(db, key, now))
  }

  /** `UPDATE logs SET last_entry_time = ? WHERE plate_number = ?`: every
      row with the key gets `now` as its last entry and nothing else
      changes. The set of plates stays the same, so does the `UNIQUE`
      constraint, and when it holds the update touches exactly the one row
      holding the key. */
  function SetLastEntry(db: Store, key: string, now: Timestamp): (r: Store)
    ensures |r| == |db|
    ensures forall j :: 0 <= j < |db| ==>
      r[j] == (if db[j].plateNumber == key then db[j].(lastEntryTime := now) else db[j])
    ensures Plates(r) == Plates(db)
    ensures UniquePlates(db) ==> UniquePlates(r)
    ensures forall i :: UniquePlates(db) && 0 <= i < |db| && db[i].plateNumber == key ==>
      r == db[i := db[i].(lastEntryTime := now)]
  {
    var r := seq(|db|, j requires 0 <= j < |db| =>
      if db[j].plateNumber == key then db[j].(lastEntryTime := now) else db[j]);
    UpdateKeepsPlates(db, key, now, r);
    r
  }

  /** A row-by-row update of `last_entry_time` keeps every plate where it
      was, and so the set of plates and their uniqueness; under uniqueness
      it is a single-row update. */
  lemma UpdateKeepsPlates(db: Store, key: string, now: Timestamp, r: Store)
    requires |r| == |db|
    requires forall j :: 0 <= j < |db| ==>
      r[j] == (if db[j].plateNumber == key then db[j].(lastEntryTime := now) else db[j])
    ensures Plates(r) == Plates(db)
    ensures UniquePlates(db) ==> UniquePlates(r)
    ensures forall i :: UniquePlates(db) && 0 <= i < |db| && db[i].plateNumber == key ==>
      r == db[i := db[i].(lastEntryTime := now)]
  {
    assert forall j :: 0 <= j < |db| ==> r[j].plateNumber == db[j].plateNumber;
    forall p | p in Plates(r) ensures p in Plates(db) {
      var j :| 0 <= j < |r| && r[j].plateNumber == p;
      assert db[j].plateNumber == p;
    }
    forall p | p in Plates(db) ensures p in Plates(r) {
      var j :| 0 <= j < |db| && db[j].plateNumber == p;
      assert r[j].plateNumber == p;
    }
    forall i | UniquePlates(db) && 0 <= i < |db| && db[i].plateNumber == key
      ensures r == db[i := db[i].(lastEntryTime := now)]
    {
      var u := db[i := db[i].(lastEntryTime := now)];
      forall j | 0 <= j < |db| ensures r[j] == u[j] {
        if j != i {
          assert db[j].plateNumber != key by {
            if j < i {
              assert db[j].plateNumber != db[i].plateNumber;
            } else {
              assert db[i].plateNumber != db[j].plateNumber;
            }
          }
        }
      }
    }
  }

  /** Both branches of `log_plate` keep the `UNIQUE` constraint. */
  lemma LogPlateKeepsUnique(db: Store, plate: string, now: Timestamp)
    requires UniquePlates(db)
    ensures UniquePlates(LogPlate(db, plate, now).db)
  {
    var key := Normalize(plate);
    var r := LogPlate(db, plate, now);
    if r.isNew {
      assert r.db == db + [Sighting(key, now, now)];
      InsertKeepsUnique(db, Sighting(key, now, now));
    }
  }

  /** `log_plate` never forgets a plate and records the logged key. */
  lemma LogPlateKeepsPlates(db: Store, plate: string, now: Timestamp)
    ensures Plates(LogPlate(db, plate, now).db) == Plates(db) + {Normalize(plate)}
  {
    var key := Normalize(plate);
    var r := LogPlate(db, plate, now);
    if r.isNew {
      assert r.db == db + [Sighting(key, now, now)];
      InsertPlates(db, Sighting(key, now, now));
    } else {
      assert r.db == SetLastEntry(db, key, now);
    }
  }

  /** On a table with unique plates, a repeat sighting changes exactly the
      one row with that key, and only its `last_entry_time`; the answer is
      that row's previous `last_entry_time`. */
  lemma LogPlateRepeatTouchesOneRow(db: Store, plate: string, now: Timestamp, i: nat)
    requires UniquePlates(db)
    requires i < |db| && db[i].plateNumber == Normalize(plate)
    ensures var r := LogPlate(db, plate, now);
      && !r.isNew
      && r.lastEntry == Some(db[i].lastEntryTime)
      && r.db == db[i := db[i].(lastEntryTime := now)]
  {
    var r := LogPlate(db, plate, now);
    assert db[i].plateNumber in Plates(db);
    var k :| 0 <= k < |db| && db[k].plateNumber == Normalize(plate) && r.lastEntry == Some(db[k].lastEntryTime);
    assert k == i;
  }

  /** Logging a plate and then any reading with the same key: the second
      call reports a returning car whose last entry is the time of the
      first call. */
  lemma LogPlateTwice(db: Store, first: string, second: string, t1: Timestamp, t2: Timestamp)
    requires Normalize(first) == Normalize(second)
    ensures var r1 := LogPlate(db, first, t1);
      var r2 := LogPlate(r1.db, second, t2);
      !r2.isNew && r2.lastEntry == Some(t1)
  {
    var key := Normalize(first);
    var r1 := LogPlate(db, first, t1);
    LogPlatePresent(db, first, t1);
    var r2 := LogPlate(r1.db, second, t2);
    var i :| 0 <= i < |r1.db| && r1.db[i].plateNumber == key && r2.lastEntry == Some(r1.db[i].lastEntryTime);
    if i >= |db| {
      assert r1.db[i] == Sighting(key, t1, t1);
    }
  }

  /** After `log_plate` every row with the key carries `now` as its last
      entry. */
  lemma LogPlatePresent(db: Store, plate: string, now: Timestamp)
    ensures var r := LogPlate(db, plate, now);
      forall j :: 0 <= j < |r.db| && r.db[j].plateNumber == Normalize(plate) ==>
        r.db[j].lastEntryTime == now
  {
    var key := Normalize(plate);
    var r := LogPlate(db, plate, now);
    if r.isNew {
      forall j | 0 <= j < |db| ensures r.db[j].plateNumber != key {
        assert r.db[j] == r.db[..|db|][j] == db[j];
        assert db[j].plateNumber in Plates(db);
      }
    }
  }

  // ---------------------------------------------------------------------
  // init_database and view_database
  // ---------------------------------------------------------------------

  /** `PREDEFINED_VEHICLES`: four known plates, each first and last seen
      at the same time. */
  const PredefinedVehicles: seq<Sighting> := [
    Sighting("RJ14CV0002", "2024-11-27 09:00:00", "2024-11-27 09:00:00"),
    Sighting("22BH6517A", "2024-11-27 09:10:00", "2024-11-27 09:10:00"),
    Sighting("KA18EQ0001", "2024-11-27 09:20:00", "2024-11-27 09:20:00"),
    Sighting("KL65AN7722", "2024-11-27 09:30:00", "2024-11-27 09:30:00")
  ]

  /** The seeding loop of `init_database`: each record is inserted in
      turn and an `IntegrityError` is swallowed. Existing rows stay as they
      were and rows are only appended. */
  function SeedAll(db: Store, seeds: seq<Sighting>): (r: Store)
    ensures |db| <= |r| && r[..|db|] == db
    decreases |seeds|
  {
    if |seeds| == 0 then db
    else
      var next := SeedStep(db, seeds[0]);
      var r := SeedAll(next, seeds[1..]);
      assert r[..|db|] == r[..|next|][..|db|];
      r
  }

  /** One iteration of the seeding loop: the record is appended when its
      plate is absent, and otherwise the `IntegrityError` is swallowed and
      the table stays as it was. */
  function SeedStep(db: Store, v: Sighting): (r: Store)
    ensures v.plateNumber !in Plates(db) ==> r == db + [v]
    ensures v.plateNumber in Plates(db) ==> r == db
  {
    match Insert(db, v)
    case Success(db') => db'
    case Failure(_) => db
  }

  /** Afterwards every seed plate is present, no plate is lost, and each
      appended row is one of the seed records. */
  lemma {:induction false} SeedAllPlates(db: Store, seeds: seq<Sighting>)
    ensures var r := SeedAll(db, seeds);
      && Plates(db) <= Plates(r)
      && (forall k :: 0 <= k < |seeds| ==> seeds[k].plateNumber in Plates(r))
      && (forall k :: |db| <= k < |r| ==> r[k] in seeds)
    decreases |seeds|
  {
    if |seeds| > 0 {
      var next, rest := SeedStep(db, seeds[0]), seeds[1..];
      SeedStepKeepsPlates(db, seeds[0], next);
      SeedAllPlates(next, rest);
      var r := SeedAll(next, rest);
      assert SeedAll(db, seeds) == r;
      forall k | |db| <= k < |r| ensures r[k] in seeds {
        if k < |next| {
          assert r[k] == r[..|next|][k] == next[k] == seeds[0];
        } else {
          assert r[k] in rest;
        }
      }
      forall k | 0 <= k < |seeds| ensures seeds[k].plateNumber in Plates(r) {
        if k > 0 {
          assert seeds[k] == rest[k - 1];
        }
      }
    }
  }

  /** Seeding keeps the `UNIQUE` constraint: a failed insert changes
      nothing and a successful one adds an absent plate. */
  lemma {:induction false} SeedAllKeepsUnique(db: Store, seeds: seq<Sighting>)
    ensures UniquePlates(db) ==> UniquePlates(SeedAll(db, seeds))
    decreases |seeds|
  {
    if |seeds| > 0 && UniquePlates(db) {
      var next := SeedStep(db, seeds[0]);
      InsertKeepsUnique(db, seeds[0]);
      SeedAllKeepsUnique(next, seeds[1..]);
    }
  }

  lemma SeedStepKeepsPlates(db: Store, v: Sighting, next: Store)
    requires next == SeedStep(db, v)
    ensures Plates(db) <= Plates(next)
    ensures v.plateNumber in Plates(next)
  {
    if v.plateNumber !in Plates(db) {
      InsertPlates(db, v);
    }
  }

  /** Seeding a table that already holds every seed plate changes nothing. */
  lemma {:induction false} SeedAllNoOp(db: Store, seeds: seq<Sighting>)
    requires forall k :: 0 <= k < |seeds| ==> seeds[k].plateNumber in Plates(db)
    ensures SeedAll(db, seeds) == db
    decreases |seeds|
  {
    if |seeds| > 0 {
      SeedAllNoOp(db, seeds[1..]);
    }
  }

  /** `init_database()` on the current contents of `logs`. */
  function InitDatabase(db: Store): (r: Store)
    ensures |db| <= |r| && r[..|db|] == db
    ensures forall k :: 0 <= k < |PredefinedVehicles| ==> PredefinedVehicles[k].plateNumber in Plates(r)
    ensures UniquePlates(db) ==> UniquePlates(r)
  {
    SeedAllPlates(db, PredefinedVehicles);
    SeedAllKeepsUnique(db, PredefinedVehicles);
    SeedAll(db, PredefinedVehicles)
  }

  /** Running `init_database` twice gives the table of running it once. */
  lemma InitDatabaseIdempotent(db: Store)
    ensures InitDatabase(InitDatabase(db)) == InitDatabase(db)
  {
    SeedAllNoOp(InitDatabase(db), PredefinedVehicles);
  }

  /** Every row present before initialisation, seed plate or not, is left
      exactly as it was. */
  lemma InitDatabaseKeepsExistingRow(db: Store, i: nat)
    requires i < |db|
    ensures InitDatabase(db)[i] == db[i]
  {
    var r := InitDatabase(db);
    assert r[..|db|][i] == r[i];
  }

  /** Seeding with pairwise distinct plates that are all absent appends
      every seed record, in order. */
  lemma {:induction false} SeedAllFresh(db: Store, seeds: seq<Sighting>)
    requires FreshSeeds(db, seeds)
    ensures SeedAll(db, seeds) == db + seeds
    decreases |seeds|
  {
    if |seeds| > 0 {
      FreshSeedsStep(db, seeds);
      SeedAllFresh(db + [seeds[0]], seeds[1..]);
      SeedStepFresh(db, seeds[0]);
      SeedAllUnfold(db, seeds);
      AppendFirstThenRest(db, seeds);
    }
  }

  /** Seed plates that are pairwise distinct and absent from the table. */
  predicate FreshSeeds(db: Store, seeds: seq<Sighting>) {
    && (forall i, j :: 0 <= i < j < |seeds| ==> seeds[i].plateNumber != seeds[j].plateNumber)
    && (forall k :: 0 <= k < |seeds| ==> seeds[k].plateNumber !in Plates(db))
  }

  lemma FreshSeedsStep(db: Store, seeds: seq<Sighting>)
    requires |seeds| > 0 && FreshSeeds(db, seeds)
    ensures FreshSeeds(db + [seeds[0]], seeds[1..])
  {
    var next, rest := db + [seeds[0]], seeds[1..];
    InsertPlates(db, seeds[0]);
    forall k | 0 <= k < |rest| ensures rest[k].plateNumber !in Plates(next) {
      assert rest[k] == seeds[k + 1];
    }
    forall i, j | 0 <= i < j < |rest| ensures rest[i].plateNumber != rest[j].plateNumber {
      assert rest[i] == seeds[i + 1] && rest[j] == seeds[j + 1];
    }
  }

  /** An insert of an absent plate appends the record. */
  lemma SeedStepFresh(db: Store, v: Sighting)
    requires v.plateNumber !in Plates(db)
    ensures SeedStep(db, v) == db + [v]
  {
  }

  lemma SeedAllUnfold(db: Store, seeds: seq<Sighting>)
    requires |seeds| > 0
    ensures SeedAll(db, seeds) == SeedAll(SeedStep(db, seeds[0]), seeds[1..])
  {
  }

  lemma AppendFirstThenRest<T>(xs: seq<T>, ys: seq<T>)
    requires |ys| > 0
    ensures xs + [ys[0]] + ys[1..] == xs + ys
  {
    assert [ys[0]] + ys[1..] == ys;
  }

  /** On an empty table, initialisation stores exactly the four seed
      records, in order. */
  lemma InitDatabaseFresh()
    ensures InitDatabase([]) == PredefinedVehicles
  {
    assert Plates([]) == {};
    SeedAllFresh([], PredefinedVehicles);
  }

  /** `view_database()`: the rows in storage order, as
      `(plate_number, entry_time, last_entry_time)`. The listing names
      exactly the plates in the table, and no plate twice while the
      `UNIQUE` constraint holds. */
  function ViewDatabase(db: Store): (rows: seq<(string, Timestamp, Timestamp)>)
    ensures |rows| == |db|
    ensures forall i :: 0 <= i < |db| ==>
      rows[i] == (db[i].plateNumber, db[i].entryTime, db[i].lastEntryTime)
    ensures (set i | 0 <= i < |rows| :: rows[i].0) == Plates(db)
    ensures UniquePlates(db) ==> forall i, j :: 0 <= i < j < |rows| ==> rows[i].0 != rows[j].0
  {
    var rows := seq(|db|, i requires 0 <= i < |db| => (db[i].plateNumber, db[i].entryTime, db[i].lastEntryTime));
    assert forall i :: 0 <= i < |rows| ==> rows[i].0 == db[i].plateNumber;
    rows
  }

  /** After initialising an empty table, the listing holds exactly the
      seed plates, one row each, each first seen when it was last seen. */
  lemma ViewAfterFreshInit()
    ensures var rows := ViewDatabase(InitDatabase([]));
      && |rows| == 4
      && (set i | 0 <= i < |rows| :: rows[i].0) == {"RJ14CV0002", "22BH6517A", "KA18EQ0001", "KL65AN7722"}
      && (forall i :: 0 <= i < |rows| ==> rows[i].1 == rows[i].2)
      && UniquePlates(InitDatabase([]))
  {
    InitDatabaseFresh();
    PredefinedVehiclesShape();
  }

  /** The second seed plate, `22BH6517A`, holds the letter `B`. */
  lemma SeedPlateHoldsB()
    ensures 'B' in PredefinedVehicles[1].plateNumber
  {
    assert PredefinedVehicles[1].plateNumber[2] == 'B';
  }

  /** The seed list: four distinct plates, each with equal timestamps. */
  lemma PredefinedVehiclesShape()
    ensures |PredefinedVehicles| == 4
    ensures PredefinedVehicles[0].plateNumber == "RJ14CV0002"
    ensures PredefinedVehicles[1].plateNumber == "22BH6517A"
    ensures PredefinedVehicles[2].plateNumber == "KA18EQ0001"
    ensures PredefinedVehicles[3].plateNumber == "KL65AN7722"
    ensures Plates(PredefinedVehicles) == {"RJ14CV0002", "22BH6517A", "KA18EQ0001", "KL65AN7722"}
    ensures UniquePlates(PredefinedVehicles)
    ensures forall i :: 0 <= i < |PredefinedVehicles| ==>
      PredefinedVehicles[i].entryTime == PredefinedVehicles[i].lastEntryTime
  {
    var seeds := PredefinedVehicles;
    var expected := {"RJ14CV0002", "22BH6517A", "KA18EQ0001", "KL65AN7722"};
    forall p | p in Plates(seeds) ensures p in expected {
      var i :| 0 <= i < |seeds| && seeds[i].plateNumber == p;
      assert i == 0 || i == 1 || i == 2 || i == 3;
    }
    assert seeds[0].plateNumber in Plates(seeds) && seeds[1].plateNumber in Plates(seeds);
    assert seeds[2].plateNumber in Plates(seeds) && seeds[3].plateNumber in Plates(seeds);
  }

  // ---------------------------------------------------------------------
  // Timestamps and the clock
  // ---------------------------------------------------------------------

  /** Every row was first seen no later than it was last seen. */
  predicate EntriesOrdered(db: Store) {
    forall i :: 0 <= i < |db| ==> LexLe(db[i].entryTime, db[i].lastEntryTime)
  }

  /** `now` is no earlier than any last entry in the table. */
  predicate ClockAhead(db: Store, now: Timestamp) {
    forall i :: 0 <= i < |db| ==> LexLe(db[i].lastEntryTime, now)
  }

  /** The code does not enforce `entry_time <= last_entry_time`. A
      sufficient condition for `log_plate` to keep it: every row is already
      ordered and `now` is no earlier than any last entry (`ClockAhead`).
      The condition is not necessary, since only the row with the key is
      touched. */
  lemma LogPlateKeepsEntriesOrdered(db: Store, plate: string, now: Timestamp)
    requires EntriesOrdered(db) && ClockAhead(db, now)
    ensures EntriesOrdered(LogPlate(db, plate, now).db)
  {
    var r := LogPlate(db, plate, now);
    forall i | 0 <= i < |r.db| ensures LexLe(r.db[i].entryTime, r.db[i].lastEntryTime) {
      if i < |db| {
        if db[i].plateNumber == Normalize(plate) {
          LexLeTransitive(db[i].entryTime, db[i].lastEntryTime, now);
        }
      } else {
        LexLeReflexive(now);
      }
    }
  }

  /** The seed rows are ordered, so a freshly initialised table is. */
  lemma InitDatabaseFreshEntriesOrdered()
    ensures EntriesOrdered(InitDatabase([]))
  {
    var db := InitDatabase([]);
    InitDatabaseFresh();
    PredefinedVehiclesShape();
    forall i | 0 <= i < |db| ensures LexLe(db[i].entryTime, db[i].lastEntryTime) {
      LexLeReflexive(db[i].entryTime);
    }
  }
}

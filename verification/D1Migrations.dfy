/**
 * The messaging migrations of src/adapters/cloudflare-d1-messaging-schema.ts: ten statements,
 * each applied and then recorded, with no transaction around the two.
 */
module D1Migrations {
  function SanitizeChar(c: char): char {
    if 'a' <= c <= 'z' || 'A' <= c <= 'Z' || '0' <= c <= '9' || c == '_' then c else '_'
  }

  function SanitizeTableName(name: string): string {
    seq(|name|, i requires 0 <= i < |name| => SanitizeChar(name[i]))
  }

  /** What the statements create for one table. */
  datatype Object = Table | Index(column: string) | FtsTable | Trigger(name: string)

  datatype Migration = Migration(name: string, creates: Object)

  const SUFFIXES := [
    "__01_create_table", "__02_index_received_at", "__03_index_from_email", "__04_index_thread_id",
    "__05_index_channel", "__06_create_fts", "__07_trigger_ai", "__08_trigger_ad",
    "__09_trigger_au_delete", "__10_trigger_au_insert"]

  const OBJECTS := [
    Table, Index("received_at"), Index("from_email"), Index("thread_id"),
    Index("channel"), FtsTable, Trigger("ai"), Trigger("ad"),
    Trigger("au_delete"), Trigger("au_insert")]

  function Migrations(table: string): (ms: seq<Migration>)
    ensures |ms| == 10
  {
    seq(10, i requires 0 <= i < 10 => Migration(SanitizeTableName(table) + SUFFIXES[i], OBJECTS[i]))
  }

  datatype Db = Db(tracking: bool, objects: set<Object>, recorded: seq<string>)

  const EMPTY := Db(false, {}, [])

  /** An index or a trigger needs its table; CREATE ... IF NOT EXISTS accepts what is already there. */
  predicate CanCreate(db: Db, o: Object) {
    o.Index? || o.Trigger? ==> Table in db.objects
  }

  /** One run of the migrations may stop after any number of statements. */
  datatype Outcome = Completed | Stopped | Failed
  datatype Ran = Ran(db: Db, outcome: Outcome)

  function WalkFrom(ms: seq<Migration>, i: nat, db: Db, statements: nat): Ran
    requires i <= |ms|
    decreases |ms| - i
  {
    if i == |ms| then Ran(db, Completed)
    else if statements == 0 then Ran(db, Stopped)
    else if ms[i].name in db.recorded then WalkFrom(ms, i + 1, db, statements - 1)
    else if statements == 1 then Ran(db, Stopped)
    else if !CanCreate(db, ms[i].creates) then Ran(db, Failed)
    else
      var db1 := db.(objects := db.objects + {ms[i].creates});
      if statements == 2 then Ran(db1, Stopped)
      else WalkFrom(ms, i + 1, db1.(recorded := db1.recorded + [ms[i].name]), statements - 3)
  }

  function Apply(table: string, db: Db, statements: nat): Ran {
    if statements == 0 then Ran(db, Stopped)
    else WalkFrom(Migrations(table), 0, db.(tracking := true), statements - 1)
  }

  /** Runs that stop after the given numbers of statements, one after the other. */
  function Runs(table: string, db: Db, stops: seq<nat>): Db {
    if stops == [] then db else Apply(table, Runs(table, db, stops[..|stops| - 1]), stops[|stops| - 1]).db
  }

  class D1Database {
    var tracking: bool
    var objects: set<Object>
    var recorded: seq<string>

    function State(): Db
      reads this
    {
      Db(tracking, objects, recorded)
    }

    constructor ()
      ensures State() == EMPTY
    {
      tracking, objects, recorded := false, {}, [];
    }
  }

  /** The migration runner, allowed the given number of statements. */
  method ApplyMessagingMigrations(binding: D1Database, table: string, statements: nat) returns (outcome: Outcome)
    modifies binding
    ensures Ran(binding.State(), outcome) == Apply(table, old(binding.State()), statements)
  {
    if statements == 0 {
      return Stopped;
    }
    binding.tracking := true;
    ghost var start := binding.State();
    var left := statements - 1;
    var ms := Migrations(table);
    var i := 0;
    while i < |ms|
      invariant 0 <= i <= |ms|
      invariant 0 <= left
      invariant WalkFrom(ms, i, binding.State(), left) == WalkFrom(ms, 0, start, statements - 1)
      decreases |ms| - i
    {
      if left == 0 {
        return Stopped;
      }
      if ms[i].name in binding.recorded {
        left := left - 1;
      } else {
        if left == 1 {
          return Stopped;
        }
        if !CanCreate(binding.State(), ms[i].creates) {
          return Failed;
        }
        binding.objects := binding.objects + {ms[i].creates};
        if left == 2 {
          return Stopped;
        }
        binding.recorded := binding.recorded + [ms[i].name];
        left := left - 3;
      }
      i := i + 1;
    }
    outcome := Completed;
  }

  // ---- what every run keeps ----

  function Names(ms: seq<Migration>): seq<string> {
    seq(|ms|, i requires 0 <= i < |ms| => ms[i].name)
  }

  ghost function ObjectsOf(ms: seq<Migration>): set<Object> {
    set i | 0 <= i < |ms| :: ms[i].creates
  }

  ghost predicate DistinctNames(ms: seq<Migration>) {
    forall i, j :: 0 <= i < j < |ms| ==> ms[i].name != ms[j].name
  }

  ghost predicate InDependencyOrder(ms: seq<Migration>) {
    forall i :: 0 <= i < |ms| && (ms[i].creates.Index? || ms[i].creates.Trigger?) ==> Table in ObjectsOf(ms[..i])
  }

  /** The first r steps are recorded, in order; they are applied, and at most the next one is as well. */
  ghost predicate Resumable(ms: seq<Migration>, db: Db, r: nat) {
    && r <= |ms|
    && db.recorded == Names(ms[..r])
    && (db.objects == ObjectsOf(ms[..r]) || (r < |ms| && db.objects == ObjectsOf(ms[..r + 1])))
  }

  lemma SuffixNumber(i: nat)
    requires i < 10
    ensures |SUFFIXES[i]| >= 4 && SUFFIXES[i][3] == "1234567890"[i]
  {
    assert i == 0 || i == 1 || i == 2 || i == 3 || i == 4 || i == 5 || i == 6 || i == 7 || i == 8 || i == 9;
  }

  lemma SuffixesDiffer(i: nat, j: nat)
    requires i < j < 10
    ensures SUFFIXES[i] != SUFFIXES[j]
  {
    SuffixNumber(i);
    SuffixNumber(j);
  }

  lemma NamesDiffer(table: string)
    ensures DistinctNames(Migrations(table))
  {
    var t, ms := SanitizeTableName(table), Migrations(table);
    forall i, j | 0 <= i < j < |ms|
      ensures ms[i].name != ms[j].name
    {
      SuffixesDiffer(i, j);
      assert (t + SUFFIXES[i])[|t|..] == SUFFIXES[i] && (t + SUFFIXES[j])[|t|..] == SUFFIXES[j];
    }
  }

  lemma OrderIsRight(table: string)
    ensures InDependencyOrder(Migrations(table))
  {
    var ms := Migrations(table);
    forall i | 0 <= i < |ms| && (ms[i].creates.Index? || ms[i].creates.Trigger?)
      ensures Table in ObjectsOf(ms[..i])
    {
      assert ms[..i][0].creates == Table;
    }
  }

  lemma ObjectsSnoc(ms: seq<Migration>, r: nat)
    requires r < |ms|
    ensures ObjectsOf(ms[..r + 1]) == ObjectsOf(ms[..r]) + {ms[r].creates}
    ensures Names(ms[..r + 1]) == Names(ms[..r]) + [ms[r].name]
  {
    forall o
      ensures o in ObjectsOf(ms[..r + 1]) <==> o in ObjectsOf(ms[..r]) + {ms[r].creates}
    {
      if o in ObjectsOf(ms[..r]) {
        var i :| 0 <= i < r && ms[..r][i].creates == o;
        assert ms[..r + 1][i].creates == o;
      }
      assert ms[..r + 1][r] == ms[r];
      if o in ObjectsOf(ms[..r + 1]) {
        var i :| 0 <= i < r + 1 && ms[..r + 1][i].creates == o;
        assert i < r ==> ms[..r][i].creates == o;
      }
    }
  }

  lemma RecordedIff(ms: seq<Migration>, r: nat, i: nat)
    requires DistinctNames(ms) && r <= |ms| && i < |ms|
    ensures ms[i].name in Names(ms[..r]) <==> i < r
  {
    if i < r {
      assert Names(ms[..r])[i] == ms[i].name;
    }
  }

  function Creating(db: Db, m: Migration): Db {
    db.(objects := db.objects + {m.creates})
  }

  function Recording(db: Db, m: Migration): Db {
    db.(recorded := db.recorded + [m.name])
  }

  /** The first unrecorded statement can run, even when it already ran before a stop. */
  lemma NextStepApplies(ms: seq<Migration>, db: Db, r: nat)
    requires InDependencyOrder(ms) && Resumable(ms, db, r) && r < |ms|
    ensures CanCreate(db, ms[r].creates)
    ensures Resumable(ms, Creating(db, ms[r]), r)
    ensures Resumable(ms, Recording(Creating(db, ms[r]), ms[r]), r + 1)
  {
    ObjectsSnoc(ms, r);
    assert Creating(db, ms[r]).objects == ObjectsOf(ms[..r + 1]);
  }

  /** What a walk over the steps from i on leaves, started where the first r are recorded. */
  ghost predicate Resumes(ms: seq<Migration>, i: nat, db: Db, r: nat, statements: nat, r': nat)
    requires i <= |ms|
  {
    var ran := WalkFrom(ms, i, db, statements);
    && r <= r' && Resumable(ms, ran.db, r') && ran.outcome != Failed && ran.db.tracking == db.tracking
    && (ran.outcome == Completed ==> r' == |ms|)
    && (statements >= 3 * (|ms| - i) ==> ran.outcome == Completed)
    && (r == |ms| ==> ran.db == db)
  }

  /** A recorded step costs one statement, the look-up. */
  lemma WalkSkips(ms: seq<Migration>, i: nat, db: Db, statements: nat)
    requires i < |ms| && statements > 0 && ms[i].name in db.recorded
    ensures WalkFrom(ms, i, db, statements) == WalkFrom(ms, i + 1, db, statements - 1)
  {
  }

  /** An unrecorded one costs three, and the walk may stop before, between or after them. */
  lemma WalkApplies(ms: seq<Migration>, i: nat, db: Db, statements: nat)
    requires i < |ms| && ms[i].name !in db.recorded && CanCreate(db, ms[i].creates)
    ensures WalkFrom(ms, i, db, statements) ==
            if statements <= 1 then Ran(db, Stopped)
            else if statements == 2 then Ran(Creating(db, ms[i]), Stopped)
            else WalkFrom(ms, i + 1, Recording(Creating(db, ms[i]), ms[i]), statements - 3)
  {
  }

  lemma StoppedResumes(ms: seq<Migration>, i: nat, db: Db, statements: nat, ran: Db, r: nat)
    requires i < |ms| && WalkFrom(ms, i, db, statements) == Ran(ran, Stopped) && statements < 3 * (|ms| - i)
    requires Resumable(ms, ran, r) && ran.tracking == db.tracking && (r == |ms| ==> ran == db)
    ensures Resumes(ms, i, db, r, statements, r)
  {
  }

  /**
   * From step i on, with i at most the first unrecorded step, a run fails nowhere and resumes where
   * the last stopped.
   */
  lemma {:induction false} WalkResumes(ms: seq<Migration>, i: nat, db: Db, r: nat, statements: nat) returns (r': nat)
    requires DistinctNames(ms) && InDependencyOrder(ms) && Resumable(ms, db, r) && i <= r
    ensures Resumes(ms, i, db, r, statements, r')
    decreases |ms| - i
  {
    r' := r;
    if i < |ms| {
      RecordedIff(ms, r, i);
      if i < r {
        r' := WalkRecorded(ms, i, db, r, statements);
      } else {
        r' := WalkUnrecorded(ms, i, db, statements);
      }
    }
  }

  lemma {:induction false} WalkRecorded(ms: seq<Migration>, i: nat, db: Db, r: nat, statements: nat) returns (r': nat)
    requires DistinctNames(ms) && InDependencyOrder(ms) && Resumable(ms, db, r) && i < r && i < |ms|
    requires ms[i].name in db.recorded
    ensures Resumes(ms, i, db, r, statements, r')
    decreases |ms| - i, 0
  {
    if statements == 0 {
      r' := r;
      StoppedResumes(ms, i, db, statements, db, r);
    } else {
      WalkSkips(ms, i, db, statements);
      r' := WalkResumes(ms, i + 1, db, r, statements - 1);
    }
  }

  lemma {:induction false} WalkUnrecorded(ms: seq<Migration>, r: nat, db: Db, statements: nat) returns (r': nat)
    requires DistinctNames(ms) && InDependencyOrder(ms) && Resumable(ms, db, r) && r < |ms|
    requires ms[r].name !in db.recorded
    ensures Resumes(ms, r, db, r, statements, r')
    decreases |ms| - r, 0
  {
    r' := r;
    NextStepApplies(ms, db, r);
    WalkApplies(ms, r, db, statements);
    if statements <= 1 {
      StoppedResumes(ms, r, db, statements, db, r);
    } else if statements == 2 {
      StoppedResumes(ms, r, db, statements, Creating(db, ms[r]), r);
    } else {
      r' := WalkResumes(ms, r + 1, Recording(Creating(db, ms[r]), ms[r]), r + 1, statements - 3);
    }
  }

  lemma {:induction false} RunsResume(table: string, stops: seq<nat>) returns (r: nat)
    ensures Resumable(Migrations(table), Runs(table, EMPTY, stops), r)
  {
    var ms := Migrations(table);
    if stops == [] {
      r := 0;
      assert ObjectsOf(ms[..0]) == {};
    } else {
      var before := RunsResume(table, stops[..|stops| - 1]);
      NamesDiffer(table);
      OrderIsRight(table);
      r := before;
      var statements := stops[|stops| - 1];
      if statements > 0 {
        var db := Runs(table, EMPTY, stops[..|stops| - 1]).(tracking := true);
        r := WalkResumes(ms, 0, db, before, statements - 1);
      }
    }
  }

  lemma ResumableMeans(ms: seq<Migration>, db: Db, r: nat)
    requires DistinctNames(ms) && Resumable(ms, db, r)
    ensures forall i :: 0 <= i < |ms| && ms[i].name in db.recorded ==> ms[i].creates in db.objects
    ensures forall i, j :: 0 <= i < j < |db.recorded| ==> db.recorded[i] != db.recorded[j]
  {
    forall i | 0 <= i < |ms| && ms[i].name in db.recorded
      ensures ms[i].creates in db.objects
    {
      RecordedIff(ms, r, i);
      assert ms[..r][i] == ms[i];
      if r < |ms| {
        assert ms[..r + 1][i] == ms[i];
      }
    }
  }

  /**
   * Crash-resumable: after runs that stop between any two statements, what is recorded is
   * applied and recorded once; no statement ever fails; a run that is allowed its 31 statements
   * ends with all ten steps applied and recorded, in order, and running again changes nothing.
   */
  lemma MigrationsResume(table: string, stops: seq<nat>, more: nat)
    ensures var ms, db := Migrations(table), Runs(table, EMPTY, stops);
            && (forall i :: 0 <= i < |ms| && ms[i].name in db.recorded ==> ms[i].creates in db.objects)
            && (forall i, j :: 0 <= i < j < |db.recorded| ==> db.recorded[i] != db.recorded[j])
            && Apply(table, db, more).outcome != Failed
    ensures var ms, end := Migrations(table), Apply(table, Runs(table, EMPTY, stops), 31);
            && end.outcome == Completed
            && end.db == Db(true, ObjectsOf(ms), Names(ms))
            && Apply(table, end.db, more).db == end.db
  {
    var ms, db := Migrations(table), Runs(table, EMPTY, stops);
    var r := RunsResume(table, stops);
    NamesDiffer(table);
    OrderIsRight(table);
    ResumableMeans(ms, db, r);
    if more > 0 {
      var _ := WalkResumes(ms, 0, db.(tracking := true), r, more - 1);
    }
    var r' := WalkResumes(ms, 0, db.(tracking := true), r, 30);
    assert ms[..10] == ms;
    var end := Apply(table, db, 31).db;
    if more > 0 {
      var _ := WalkResumes(ms, 0, end, 10, more - 1);
    }
  }

  // ---- what there is in the end ----

  /** A full run leaves the table, its four indexes, the full-text table and its four triggers, and nothing else. */
  lemma SchemaIsWhole(table: string, stops: seq<nat>)
    ensures Apply(table, Runs(table, EMPTY, stops), 31).db.objects
         == {Table, Index("received_at"), Index("from_email"), Index("thread_id"), Index("channel"), FtsTable,
             Trigger("ai"), Trigger("ad"), Trigger("au_delete"), Trigger("au_insert")}
  {
    MigrationsResume(table, stops, 0);
    var ms := Migrations(table);
    var all := {Table, Index("received_at"), Index("from_email"), Index("thread_id"), Index("channel"), FtsTable,
                Trigger("ai"), Trigger("ad"), Trigger("au_delete"), Trigger("au_insert")};
    assert ms[0].creates == Table && ms[1].creates == Index("received_at") && ms[2].creates == Index("from_email");
    assert ms[3].creates == Index("thread_id") && ms[4].creates == Index("channel") && ms[5].creates == FtsTable;
    assert ms[6].creates == Trigger("ai") && ms[7].creates == Trigger("ad");
    assert ms[8].creates == Trigger("au_delete") && ms[9].creates == Trigger("au_insert");
    assert ObjectsOf(ms) == all;
  }

  /** The table's name is made of letters, digits and underscores, place for place, and such a name is kept. */
  lemma SanitizedNames(name: string)
    ensures |SanitizeTableName(name)| == |name|
    ensures forall i :: 0 <= i < |name| ==>
              var c, c' := name[i], SanitizeTableName(name)[i];
              if 'a' <= c <= 'z' || 'A' <= c <= 'Z' || '0' <= c <= '9' then c' == c else c' == '_'
  {
  }
}

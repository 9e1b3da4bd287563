/**
 * Several runners of the messaging migrations at once, interleaved statement by statement. Nothing
 * keeps two of them from working on one step; recording it a second time violates UNIQUE.
 */
module D1Concurrent {
  import opened D1Migrations

  /** The statement a runner sends next, for step i. */
  datatype Runner = Starting | Checking(i: nat) | Creating(i: nat) | Recording(i: nat) | Finished | Rejected

  datatype World = World(db: Db, runners: seq<Runner>)

  function At(ms: seq<Migration>, i: nat): Runner {
    if i >= |ms| then Finished else Checking(i)
  }

  /** The database and the runner after that statement. */
  function Send(ms: seq<Migration>, db: Db, x: Runner): (Db, Runner) {
    match x
    case Starting => (db.(tracking := true), At(ms, 0))
    case Checking(i) => (db, if i < |ms| && ms[i].name in db.recorded then At(ms, i + 1) else Creating(i))
    case Creating(i) =>
      if i < |ms| && CanCreate(db, ms[i].creates)
      then (db.(objects := db.objects + {ms[i].creates}), Recording(i)) else (db, Rejected)
    case Recording(i) =>
      if i < |ms| && ms[i].name !in db.recorded
      then (db.(recorded := db.recorded + [ms[i].name]), At(ms, i + 1)) else (db, Rejected)
    case Finished => (db, Finished)
    case Rejected => (db, Rejected)
  }

  function Step(ms: seq<Migration>, w: World, t: nat): World {
    if t < |w.runners| then
      var (db, x) := Send(ms, w.db, w.runners[t]);
      World(db, w.runners[t := x])
    else w
  }

  /** A schedule names the runner of each statement; one it no longer names has stopped. */
  function Play(ms: seq<Migration>, w: World, schedule: seq<nat>): World {
    if schedule == [] then w else Step(ms, Play(ms, w, schedule[..|schedule| - 1]), schedule[|schedule| - 1])
  }

  function Start(db: Db, n: nat): World {
    World(db, seq(n, _ => Starting))
  }

  // ---- what every statement keeps ----

  /** With the first r steps recorded, no runner is further than that. */
  predicate Behind(ms: seq<Migration>, db: Db, r: nat, x: Runner) {
    && (!x.Starting? ==> db.tracking)
    && match x
       case Checking(i) => i < |ms| && i <= r
       case Creating(i) => i < |ms| && i <= r
       case Recording(i) => i < |ms| && i <= r && ms[i].creates in db.objects
       case Finished => r == |ms|
       case _ => true
  }

  /** A runner that works on no step that is recorded already, so that nothing can reject it. */
  predicate Leads(r: nat, x: Runner) {
    x.Starting? || x.Finished? || (x.Checking? && x.i <= r) || x == Creating(r) || x == Recording(r)
  }

  ghost predicate Orderly(ms: seq<Migration>, w: World, r: nat) {
    && Resumable(ms, w.db, r)
    && (forall t :: 0 <= t < |w.runners| ==> Behind(ms, w.db, r, w.runners[t]))
  }

  ghost predicate Led(ms: seq<Migration>, w: World, r: nat) {
    exists t :: 0 <= t < |w.runners| && Leads(r, w.runners[t])
  }

  /** The number of recorded steps after a statement. */
  function Recorded(ms: seq<Migration>, db: Db, r: nat, x: Runner): nat {
    if x == Recording(r) && r < |ms| && ms[r].name !in db.recorded then r + 1 else r
  }

  lemma SendKeeps(ms: seq<Migration>, db: Db, r: nat, x: Runner)
    requires DistinctNames(ms) && InDependencyOrder(ms) && ms != []
    requires Resumable(ms, db, r) && Behind(ms, db, r, x)
    ensures var (db', x') := Send(ms, db, x);
            var r' := Recorded(ms, db, r, x);
            && Resumable(ms, db', r') && Behind(ms, db', r', x')
            && db.objects <= db'.objects && (db.tracking ==> db'.tracking)
            && (x.Creating? ==> x' != Rejected)
            && (x.Recording? ==> (x' == Rejected <==> x.i < r))
            && (Leads(r, x) ==> Leads(r', x')) && (r' == r + 1 ==> Leads(r', x'))
  {
    match x
    case Checking(i) => RecordedIff(ms, r, i);
    case Creating(i) => CreateKeeps(ms, db, r, i);
    case Recording(i) => RecordKeeps(ms, db, r, i);
    case _ =>
  }

  lemma CreateKeeps(ms: seq<Migration>, db: Db, r: nat, i: nat)
    requires InDependencyOrder(ms) && Resumable(ms, db, r) && i < |ms| && i <= r
    ensures CanCreate(db, ms[i].creates) && Resumable(ms, db.(objects := db.objects + {ms[i].creates}), r)
  {
    if i < r {
      assert ms[..r][i] == ms[i];
      if r < |ms| {
        ObjectsSnoc(ms, r);
      }
      AppliedCanBeCreated(ms, db, r, i);
    } else {
      NextStepApplies(ms, db, r);
    }
  }

  /** What is recorded is there, with all it needs. */
  lemma AppliedCanBeCreated(ms: seq<Migration>, db: Db, r: nat, i: nat)
    requires InDependencyOrder(ms) && Resumable(ms, db, r) && i < r
    ensures ms[i].creates in db.objects && CanCreate(db, ms[i].creates)
  {
    assert ms[..r][i] == ms[i];
    if r < |ms| {
      ObjectsSnoc(ms, r);
    }
    if ms[i].creates.Index? || ms[i].creates.Trigger? {
      var j :| 0 <= j < i && ms[..i][j].creates == Table;
      assert ms[..r][j].creates == Table;
    }
  }

  lemma RecordKeeps(ms: seq<Migration>, db: Db, r: nat, i: nat)
    requires DistinctNames(ms) && Resumable(ms, db, r) && i < |ms| && i <= r && ms[i].creates in db.objects
    ensures ms[i].name in db.recorded <==> i < r
    ensures i == r ==> Resumable(ms, db.(recorded := db.recorded + [ms[i].name]), r + 1)
  {
    RecordedIff(ms, r, i);
    if i == r {
      ObjectsSnoc(ms, r);
      assert db.objects == ObjectsOf(ms[..r + 1]);
    }
  }

  lemma StillBehind(ms: seq<Migration>, db: Db, r: nat, db': Db, r': nat, x: Runner)
    requires Behind(ms, db, r, x) && db.objects <= db'.objects && r <= r' <= |ms|
    requires db.tracking ==> db'.tracking
    ensures Behind(ms, db', r', x)
  {
  }

  lemma StepKeepsOrder(ms: seq<Migration>, w: World, t: nat, r: nat) returns (r': nat)
    requires DistinctNames(ms) && InDependencyOrder(ms) && ms != [] && Orderly(ms, w, r) && Led(ms, w, r)
    ensures Orderly(ms, Step(ms, w, t), r') && Led(ms, Step(ms, w, t), r')
  {
    r' := r;
    if t < |w.runners| {
      var w' := Step(ms, w, t);
      r' := Recorded(ms, w.db, r, w.runners[t]);
      SendKeeps(ms, w.db, r, w.runners[t]);
      forall u | 0 <= u < |w'.runners|
        ensures Behind(ms, w'.db, r', w'.runners[u])
      {
        if u != t {
          StillBehind(ms, w.db, r, w'.db, r', w.runners[u]);
        }
      }
      var leader :| 0 <= leader < |w.runners| && Leads(r, w.runners[leader]);
      assert Leads(r', w'.runners[if r' == r then leader else t]);
    }
  }

  lemma {:induction false} PlayKeepsOrder(ms: seq<Migration>, db: Db, n: nat, schedule: seq<nat>, r0: nat)
      returns (r: nat)
    requires DistinctNames(ms) && InDependencyOrder(ms) && ms != [] && Resumable(ms, db, r0) && n > 0
    ensures Orderly(ms, Play(ms, Start(db, n), schedule), r) && Led(ms, Play(ms, Start(db, n), schedule), r)
  {
    if schedule == [] {
      r := r0;
      assert Leads(r, Start(db, n).runners[0]);
    } else {
      var front := schedule[..|schedule| - 1];
      var before := PlayKeepsOrder(ms, db, n, front, r0);
      r := StepKeepsOrder(ms, Play(ms, Start(db, n), front), schedule[|schedule| - 1], before);
    }
  }

  // ---- what it means ----

  /** Nobody has anything left to send. */
  ghost predicate AllEnded(w: World) {
    forall t :: 0 <= t < |w.runners| ==> w.runners[t].Finished? || w.runners[t].Rejected?
  }

  /** The next statement of runner t is one the database rejects. */
  predicate NextIsRejected(ms: seq<Migration>, w: World, t: nat) {
    t < |w.runners| && !w.runners[t].Rejected? && Send(ms, w.db, w.runners[t]).1.Rejected?
  }

  /** Runner t is about to record a step that another has recorded since t looked. */
  predicate Overtaken(ms: seq<Migration>, w: World, t: nat) {
    t < |w.runners| && w.runners[t].Recording? && w.runners[t].i < |ms|
    && ms[w.runners[t].i].name in w.db.recorded
  }

  /**
   * Any number of runners at once, in any schedule, any of them stopping anywhere, after any
   * earlier stopped runs: what is recorded is applied, and recorded once; a statement is rejected
   * exactly when its runner was overtaken at that step, so no CREATE ever is; and when all have
   * ended, all ten steps are applied and recorded in order, and some runner has finished.
   */
  lemma ConcurrentRunsComplete(table: string, stops: seq<nat>, n: nat, schedule: seq<nat>)
    requires n > 0
    ensures var ms := Migrations(table);
            var w := Play(ms, Start(Runs(table, EMPTY, stops), n), schedule);
            && (forall i :: 0 <= i < |ms| && ms[i].name in w.db.recorded ==> ms[i].creates in w.db.objects)
            && (forall i, j :: 0 <= i < j < |w.db.recorded| ==> w.db.recorded[i] != w.db.recorded[j])
            && (forall t :: NextIsRejected(ms, w, t) <==> Overtaken(ms, w, t))
            && (AllEnded(w) ==> w.db == Db(true, ObjectsOf(ms), Names(ms)) && Finished in w.runners)
  {
    var ms := Migrations(table);
    var w := Play(ms, Start(Runs(table, EMPTY, stops), n), schedule);
    NamesDiffer(table);
    OrderIsRight(table);
    var r0 := RunsResume(table, stops);
    var r := PlayKeepsOrder(ms, Runs(table, EMPTY, stops), n, schedule, r0);
    ResumableMeans(ms, w.db, r);
    forall t: nat
      ensures NextIsRejected(ms, w, t) <==> Overtaken(ms, w, t)
    {
      if t < |w.runners| {
        SendKeeps(ms, w.db, r, w.runners[t]);
      }
    }
    if AllEnded(w) {
      AllEndedIsComplete(ms, w, r);
    }
  }

  lemma AllEndedIsComplete(ms: seq<Migration>, w: World, r: nat)
    requires Orderly(ms, w, r) && Led(ms, w, r) && AllEnded(w)
    ensures w.db == Db(true, ObjectsOf(ms), Names(ms)) && Finished in w.runners
  {
    var t :| 0 <= t < |w.runners| && Leads(r, w.runners[t]);
    assert w.runners[t] == Finished && Behind(ms, w.db, r, w.runners[t]);
    assert ms[..|ms|] == ms;
  }

  lemma PlayOneMore(ms: seq<Migration>, w: World, before: seq<nat>, t: nat)
    ensures Play(ms, w, before + [t]) == Step(ms, Play(ms, w, before), t)
  {
    assert (before + [t])[..|before + [t]| - 1] == before;
  }

  lemma {:induction false} PlayAppend(ms: seq<Migration>, w: World, before: seq<nat>, after: seq<nat>)
    ensures Play(ms, w, before + after) == Play(ms, Play(ms, w, before), after)
  {
    if after == [] {
      assert before + after == before;
    } else {
      PlayAppend(ms, w, before, after[..|after| - 1]);
      PlayOneMore(ms, w, before + after[..|after| - 1], after[|after| - 1]);
      assert before + after[..|after| - 1] + [after[|after| - 1]] == before + after;
    }
  }

  lemma PlayFour(ms: seq<Migration>, w: World, e: seq<nat>)
    requires |e| == 4
    ensures Play(ms, w, e) == Step(ms, Step(ms, Step(ms, Step(ms, w, e[0]), e[1]), e[2]), e[3])
  {
    PlayOneMore(ms, w, [], e[0]);
    PlayOneMore(ms, w, [] + [e[0]], e[1]);
    PlayOneMore(ms, w, [] + [e[0]] + [e[1]], e[2]);
    PlayOneMore(ms, w, [] + [e[0]] + [e[1]] + [e[2]], e[3]);
    assert [] + [e[0]] + [e[1]] + [e[2]] + [e[3]] == e;
  }

  /** Two runners do collide: both look, both create the table, both record it. */
  lemma TwoRunnersCollide(table: string)
    ensures var ms := Migrations(table);
            Play(ms, Start(EMPTY, 2), [0, 0, 0, 1] + [1, 1, 0, 1]).runners == [Checking(1), Rejected]
  {
    var ms, w0, name := Migrations(table), Start(EMPTY, 2), Migrations(table)[0].name;
    PlayAppend(ms, w0, [0, 0, 0, 1], [1, 1, 0, 1]);
    PlayFour(ms, w0, [0, 0, 0, 1]);
    PlayFour(ms, Play(ms, w0, [0, 0, 0, 1]), [1, 1, 0, 1]);
    assert w0.runners == [Starting, Starting];
    var w3 := Step(ms, Step(ms, Step(ms, w0, 0), 0), 0);
    assert w3 == World(Db(true, {Table}, []), [Recording(0), Starting]);
    var w6 := Step(ms, Step(ms, Step(ms, w3, 1), 1), 1);
    assert w6 == World(Db(true, {Table}, []), [Recording(0), Recording(0)]);
    var w7 := Step(ms, w6, 0);
    assert w7.runners == [Checking(1), Recording(0)] && name in w7.db.recorded;
  }
}

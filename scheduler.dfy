/**
 * The job table: per guild, an ordered table from job name to the stored
 * time and the timer that fires it; persisted per guild as a file
 * `<guildId>.json` mapping job name to milliseconds, and restored from those
 * files at start-up.
 */
module Scheduler {
  import opened Wrappers
  import opened Text
  import opened Communicator
  import opened FetchTarget
  import FetchTime
  import Fetcher
  import opened Files

  /** One job: its name, its time in milliseconds, and the handle of its timer. */
  datatype Entry = Entry(key: string, time: int, handle: nat)

  /** A guild's jobs in the order of their keys in the JavaScript object. */
  type Table = seq<Entry>

  /**
   * A timer of the scheduling library, addressed by its handle (its index):
   * the guild table it was installed for, the job name its callback runs,
   * the stored time whose cron expression it fires on (`TimerCron`), and
   * whether it was cancelled.
   */
  datatype Timer = Timer(guild: string, key: string, time: int, cancelled: bool)

  /**
   * The cron expression a timer was started with: the UTC hour and minute of
   * its time. The scheduling library reads it in the host's time zone, so the
   * timer fires at that UTC time only on a host that runs in UTC.
   */
  function TimerCron(tm: Timer): string {
    FetchTime.Cron(FetchTime.FromMs(tm.time))
  }

  /**
   * The stored object of one guild file: job name to milliseconds, in key
   * order. A parsed object never repeats a name; the sequence can, so the
   * lemmas about restoring ask for `UniqueStoredKeys`.
   */
  type Stored = seq<(string, int)>

  predicate UniqueKeys(t: Table) {
    forall i, j :: 0 <= i < j < |t| ==> t[i].key != t[j].key
  }

  function Keys(t: Table): (ks: seq<string>)
    ensures |ks| == |t| && forall i :: 0 <= i < |t| ==> ks[i] == t[i].key
  {
    seq(|t|, i requires 0 <= i < |t| => t[i].key)
  }

  /** Where `key` sits in the table, if it does. */
  function Find(t: Table, key: string): (r: Option<nat>)
    ensures r.Some? ==> r.value < |t| && t[r.value].key == key
    ensures r.None? ==> forall j :: 0 <= j < |t| ==> t[j].key != key
  {
    if t == [] then None
    else if t[0].key == key then Some(0)
    else
      match Find(t[1..], key)
      case None =>
        assert forall j :: 1 <= j < |t| ==> t[j] == t[1..][j - 1];
        None
      case Some(i) => Some(i + 1)
  }

  /** `table[e.key] = e`: an existing key keeps its place, a new one goes last. */
  function Put(t: Table, e: Entry): (r: Table)
    ensures Find(t, e.key).Some? ==> r == t[Find(t, e.key).value := e]
    ensures Find(t, e.key).None? ==> r == t + [e]
  {
    match Find(t, e.key)
    case Some(i) => t[i := e]
    case None => t + [e]
  }

  /** The table without its entry `i`: the later entries move down by one. */
  function Cut(t: Table, i: nat): (r: Table)
    requires i < |t|
    ensures |r| == |t| - 1
    ensures forall j :: 0 <= j < |r| ==> r[j] == t[if j < i then j else j + 1]
  {
    t[..i] + t[i + 1..]
  }

  /** `delete table[key]` */
  function Delete(t: Table, key: string): (r: Table)
    ensures Find(t, key).Some? ==> r == Cut(t, Find(t, key).value)
    ensures Find(t, key).None? ==> r == t
  {
    match Find(t, key)
    case Some(i) => Cut(t, i)
    case None => t
  }

  /** In a table with unique keys, a key is found exactly where it sits. */
  lemma {:induction false} FindAt(t: Table, i: nat)
    requires UniqueKeys(t) && i < |t|
    ensures Find(t, t[i].key) == Some(i)
  {
    if i > 0 {
      var u := t[1..];
      assert t[0].key != t[i].key;
      assert UniqueKeys(u) by {
        forall a, b | 0 <= a < b < |u| ensures u[a].key != u[b].key {
          assert u[a] == t[a + 1] && u[b] == t[b + 1];
        }
      }
      assert u[i - 1] == t[i];
      FindAt(u, i - 1);
    }
  }

  /** Overwriting an entry with one of the same key keeps keys unique. */
  lemma ReplaceUnique(t: Table, i: nat, e: Entry)
    requires UniqueKeys(t) && i < |t| && t[i].key == e.key
    ensures UniqueKeys(t[i := e])
  {
    var r := t[i := e];
    forall a, b | 0 <= a < b < |r| ensures r[a].key != r[b].key {
      assert r[a].key == t[a].key && r[b].key == t[b].key;
    }
  }

  /** Appending an entry whose key is new keeps keys unique. */
  lemma AppendUnique(t: Table, e: Entry)
    requires UniqueKeys(t) && forall j :: 0 <= j < |t| ==> t[j].key != e.key
    ensures UniqueKeys(t + [e])
  {
    var r := t + [e];
    forall a, b | 0 <= a < b < |r| ensures r[a].key != r[b].key {
      assert r[a] == t[a];
      if b < |t| {
        assert r[b] == t[b];
      }
    }
  }

  /** After `Put`, keys are still unique and the key holds exactly the new entry, in its old place or last. */
  lemma PutSpec(t: Table, e: Entry)
    requires UniqueKeys(t)
    ensures UniqueKeys(Put(t, e))
    ensures Find(Put(t, e), e.key) == Some(if Find(t, e.key).Some? then Find(t, e.key).value else |t|)
    ensures Put(t, e)[Find(Put(t, e), e.key).value] == e
  {
    match Find(t, e.key)
    case Some(i) =>
      ReplaceUnique(t, i, e);
      FindAt(t[i := e], i);
    case None =>
      AppendUnique(t, e);
      FindAt(t + [e], |t|);
  }

  /** `Put` leaves every other key where and as it was. */
  lemma PutOthers(t: Table, e: Entry, k: string)
    requires UniqueKeys(t) && k != e.key
    ensures Find(Put(t, e), k) == Find(t, k)
    ensures Find(t, k).Some? ==> Put(t, e)[Find(t, k).value] == t[Find(t, k).value]
  {
    var r := Put(t, e);
    PutSpec(t, e);
    var at := if Find(t, e.key).Some? then Find(t, e.key).value else |t|;
    if Find(t, k).Some? {
      var j := Find(t, k).value;
      assert j != at && r[j] == t[j];
      FindAt(r, j);
    }
  }

  /** Cutting an entry out keeps keys unique. */
  lemma CutUnique(t: Table, i: nat)
    requires UniqueKeys(t) && i < |t|
    ensures UniqueKeys(Cut(t, i))
  {
    var r := Cut(t, i);
    forall a, b | 0 <= a < b < |r| ensures r[a].key != r[b].key {
      assert r[a] == t[if a < i then a else a + 1];
      assert r[b] == t[if b < i then b else b + 1];
    }
  }

  /** Cutting entry `i` out keeps every other key, with its entry. */
  lemma CutKeeps(t: Table, i: nat, k: string)
    requires UniqueKeys(t) && i < |t| && k != t[i].key
    ensures Find(Cut(t, i), k).Some? <==> Find(t, k).Some?
    ensures Find(t, k).Some? ==> Cut(t, i)[Find(Cut(t, i), k).value] == t[Find(t, k).value]
  {
    var r := Cut(t, i);
    CutUnique(t, i);
    if Find(t, k).Some? {
      var j := Find(t, k).value;
      var j' := if j < i then j else j - 1;
      assert r[j'] == t[j];
      FindAt(r, j');
    }
    if Find(r, k).Some? {
      var j := Find(r, k).value;
      assert r[j] == t[if j < i then j else j + 1];
    }
  }

  /** After `Delete`, the key is gone, every other key keeps its entry and order, and keys stay unique. */
  lemma DeleteSpec(t: Table, key: string)
    requires UniqueKeys(t)
    ensures UniqueKeys(Delete(t, key))
    ensures Find(Delete(t, key), key).None?
    ensures forall k | k != key :: (Find(Delete(t, key), k).Some? <==> Find(t, k).Some?)
    ensures forall k | k != key && Find(t, k).Some? ::
      Delete(t, key)[Find(Delete(t, key), k).value] == t[Find(t, k).value]
  {
    var r := Delete(t, key);
    if Find(t, key).Some? {
      var i := Find(t, key).value;
      CutUnique(t, i);
      assert Find(r, key).None? by {
        forall j | 0 <= j < |r| ensures r[j].key != key {
          assert r[j] == t[if j < i then j else j + 1];
        }
      }
      forall k | k != key
        ensures Find(r, k).Some? <==> Find(t, k).Some?
        ensures Find(t, k).Some? ==> r[Find(r, k).value] == t[Find(t, k).value]
      {
        CutKeeps(t, i, k);
      }
    }
  }

  /** `jobsForGuild` without its side effect: a guild with no table has an empty one. */
  function TableOf(jobs: map<string, Table>, g: string): Table {
    if g in jobs then jobs[g] else []
  }

  /** The scheduler's state: the per-guild tables and every timer ever created. */
  datatype State = State(jobs: map<string, Table>, timers: seq<Timer>)

  /** The timer behind entry `e` of guild `g` is live, runs `e`'s job for `g`, and fires at `e`'s time of day. */
  predicate Installed(s: State, g: string, e: Entry) {
    e.handle < |s.timers| &&
    s.timers[e.handle] == Timer(g, e.key, e.time, false)
  }

  /** Every table has unique keys and every entry has its own live timer. */
  ghost predicate Consistent(s: State) {
    (forall g | g in s.jobs :: UniqueKeys(s.jobs[g])) &&
    (forall g, i | g in s.jobs && 0 <= i < |s.jobs[g]| :: Installed(s, g, s.jobs[g][i]))
  }

  /** The handle stored under `key` in guild `g`, if any. */
  function LiveHandle(jobs: map<string, Table>, g: string, key: string): Option<nat> {
    match Find(TableOf(jobs, g), key)
    case None => None
    case Some(i) => Some(TableOf(jobs, g)[i].handle)
  }

  /** No live timer is lost: each one is the timer its own job's entry holds. */
  ghost predicate NoLeak(s: State) {
    forall h | 0 <= h < |s.timers| && !s.timers[h].cancelled ::
      LiveHandle(s.jobs, s.timers[h].guild, s.timers[h].key) == Some(h)
  }

  /** `handle.cancel()` */
  function CancelTimer(timers: seq<Timer>, h: nat): seq<Timer> {
    if h < |timers| then timers[h := timers[h].(cancelled := true)] else timers
  }

  /**
   * `scheduleJob` on the state: cancel the timer of an existing job of the
   * same name, store the new time under the name, start a new timer.
   */
  function Schedule(s: State, g: string, key: string, time: int): (r: State)
    ensures |r.timers| == |s.timers| + 1 && Installed(r, g, Entry(key, time, |s.timers|))
    ensures g in r.jobs
  {
    var t := TableOf(s.jobs, g);
    var timers := match Find(t, key)
                  case Some(i) => CancelTimer(s.timers, t[i].handle)
                  case None => s.timers;
    State(s.jobs[g := Put(t, Entry(key, time, |timers|))],
          timers + [Timer(g, key, time, false)])
  }

  /** Scheduling cancels exactly the name's live timer, if any, and leaves every other earlier timer as it was. */
  lemma ScheduleTimers(s: State, g: string, key: string, time: int)
    ensures forall h | 0 <= h < |s.timers| ::
      Schedule(s, g, key, time).timers[h] ==
        (if LiveHandle(s.jobs, g, key) == Some(h) then s.timers[h].(cancelled := true) else s.timers[h])
  {
  }

  /** `cancelJob` on the state: whether the job existed, and the state after it. */
  function Unschedule(s: State, g: string, key: string): (r: (State, bool))
    ensures r.1 <==> LiveHandle(s.jobs, g, key).Some?
    ensures |r.0.timers| == |s.timers|
    ensures g in r.0.jobs
  {
    var t := TableOf(s.jobs, g);
    match Find(t, key)
    case None => (State(s.jobs[g := t], s.timers), false)
    case Some(i) => (State(s.jobs[g := Delete(t, key)], CancelTimer(s.timers, t[i].handle)), true)
  }

  /** One entry of `readJobs`: store the time and start a timer, without cancelling a timer already stored. */
  function Install(s: State, g: string, key: string, time: int): (r: State)
    ensures |r.timers| == |s.timers| + 1 && Installed(r, g, Entry(key, time, |s.timers|))
    ensures r.timers[..|s.timers|] == s.timers
    ensures g in r.jobs
  {
    var t := TableOf(s.jobs, g);
    State(s.jobs[g := Put(t, Entry(key, time, |s.timers|))],
          s.timers + [Timer(g, key, time, false)])
  }

  /** `Schedule` step by step: the cancelled timers first, then the table and the new timer. */
  lemma ScheduleParts(s: State, g: string, key: string, time: int, timers: seq<Timer>)
    requires timers == match Find(TableOf(s.jobs, g), key)
                       case Some(i) => CancelTimer(s.timers, TableOf(s.jobs, g)[i].handle)
                       case None => s.timers
    ensures Schedule(s, g, key, time) ==
      State(s.jobs[g := Put(TableOf(s.jobs, g), Entry(key, time, |timers|))], timers + [Timer(g, key, time, false)])
  {
  }

  /** Cancelling cancels exactly the name's live timer, if any, and leaves every other timer as it was. */
  lemma UnscheduleTimers(s: State, g: string, key: string)
    ensures forall h | 0 <= h < |s.timers| ::
      Unschedule(s, g, key).0.timers[h] ==
        (if LiveHandle(s.jobs, g, key) == Some(h) then s.timers[h].(cancelled := true) else s.timers[h])
  {
  }

  lemma UnscheduleParts(s: State, g: string, key: string)
    ensures Find(TableOf(s.jobs, g), key).None? ==> Unschedule(s, g, key) == (Touch(s, g), false)
    ensures Find(TableOf(s.jobs, g), key).Some? ==>
      Unschedule(s, g, key) == (State(s.jobs[g := Delete(TableOf(s.jobs, g), key)],
        CancelTimer(s.timers, TableOf(s.jobs, g)[Find(TableOf(s.jobs, g), key).value].handle)), true)
  {
  }

  lemma TableOfUnique(s: State, g: string)
    requires Consistent(s)
    ensures UniqueKeys(TableOf(s.jobs, g))
    ensures forall i :: 0 <= i < |TableOf(s.jobs, g)| ==> Installed(s, g, TableOf(s.jobs, g)[i])
  {
  }

  /** Scheduling keeps every table's keys unique and every entry's timer live. */
  lemma ScheduleConsistent(s: State, g: string, key: string, time: int)
    requires Consistent(s)
    ensures Consistent(Schedule(s, g, key, time))
  {
    var s' := Schedule(s, g, key, time);
    TableOfUnique(s, g);
    PutSpec(TableOf(s.jobs, g), Entry(key, time, |s.timers|));
    forall g', i | g' in s'.jobs && 0 <= i < |s'.jobs[g']| ensures Installed(s', g', s'.jobs[g'][i]) {
      ScheduleKeepsInstalled(s, g, key, time, g', i);
    }
  }

  /** Every entry after `Schedule` has a live timer for its own job and time. */
  lemma ScheduleKeepsInstalled(s: State, g: string, key: string, time: int, g': string, i: nat)
    requires Consistent(s)
    requires g' in Schedule(s, g, key, time).jobs && i < |Schedule(s, g, key, time).jobs[g']|
    ensures var s' := Schedule(s, g, key, time); Installed(s', g', s'.jobs[g'][i])
  {
    var s' := Schedule(s, g, key, time);
    var t := TableOf(s.jobs, g);
    var e := Entry(key, time, |s.timers|);
    TableOfUnique(s, g);
    PutSpec(t, e);
    if g' != g {
      var en := s.jobs[g'][i];
      assert s'.jobs[g'][i] == en && Installed(s, g', en);
    } else if s'.jobs[g][i].key != key {
      var k := s'.jobs[g][i].key;
      PutOthers(t, e, k);
      FindAt(s'.jobs[g], i);
      var en := t[i];
      assert s'.jobs[g][i] == en && Installed(s, g, en);
    }
  }


  /**
   * Scheduling loses no timer: a timer that was live and is not the one
   * replaced is still the timer of its own job.
   */
  lemma ScheduleNoLeak(s: State, g: string, key: string, time: int)
    requires Consistent(s) && NoLeak(s)
    ensures NoLeak(Schedule(s, g, key, time))
  {
    var s' := Schedule(s, g, key, time);
    TableOfUnique(s, g);
    PutSpec(TableOf(s.jobs, g), Entry(key, time, |s.timers|));
    forall h | 0 <= h < |s'.timers| && !s'.timers[h].cancelled
      ensures LiveHandle(s'.jobs, s'.timers[h].guild, s'.timers[h].key) == Some(h)
    {
      if h < |s.timers| {
        ScheduleKeepsLive(s, g, key, time, h);
      }
    }
  }

  /** A timer that was live and is not the replaced job's stays the one its job's entry holds. */
  lemma ScheduleKeepsLive(s: State, g: string, key: string, time: int, h: nat)
    requires Consistent(s) && NoLeak(s)
    requires h < |s.timers| && !Schedule(s, g, key, time).timers[h].cancelled
    ensures var s' := Schedule(s, g, key, time);
      LiveHandle(s'.jobs, s'.timers[h].guild, s'.timers[h].key) == Some(h)
  {
    var s' := Schedule(s, g, key, time);
    var t := TableOf(s.jobs, g);
    var e := Entry(key, time, |s.timers|);
    var tm := s.timers[h];
    assert s'.timers[h].cancelled == tm.cancelled || tm.cancelled;
    assert LiveHandle(s.jobs, tm.guild, tm.key) == Some(h);
    assert s'.timers[h] == tm;
    if tm.guild == g {
      TableOfUnique(s, g);
      if tm.key != key {
        PutOthers(t, e, tm.key);
      }
    }
  }


  /**
   * After scheduling, the name holds the newest timer and the new time, the
   * timer it held before is cancelled, and other guilds' tables are untouched.
   */
  lemma ScheduleEffect(s: State, g: string, key: string, time: int)
    requires Consistent(s)
    ensures var s' := Schedule(s, g, key, time);
      && LiveHandle(s'.jobs, g, key) == Some(|s.timers|)
      && Find(TableOf(s'.jobs, g), key).Some?
      && TableOf(s'.jobs, g)[Find(TableOf(s'.jobs, g), key).value].time == time
      && (LiveHandle(s.jobs, g, key).Some? ==> s'.timers[LiveHandle(s.jobs, g, key).value].cancelled)
      && (forall g' | g' != g :: TableOf(s'.jobs, g') == TableOf(s.jobs, g'))
  {
    TableOfUnique(s, g);
    PutSpec(TableOf(s.jobs, g), Entry(key, time, |s.timers|));
  }

  /** At most one live timer runs any one job of a guild. */
  lemma OneLiveTimerPerJob(s: State, h1: nat, h2: nat)
    requires NoLeak(s)
    requires h1 < |s.timers| && h2 < |s.timers|
    requires !s.timers[h1].cancelled && !s.timers[h2].cancelled
    requires s.timers[h1].guild == s.timers[h2].guild && s.timers[h1].key == s.timers[h2].key
    ensures h1 == h2
  {
    assert LiveHandle(s.jobs, s.timers[h1].guild, s.timers[h1].key) == Some(h1);
  }

  /**
   * Scheduling the same name twice leaves the name where the first call put
   * it, with the second time and the second timer; the first timer is
   * cancelled, so exactly one live timer runs the job.
   */
  lemma RescheduleLastWriterWins(s: State, g: string, key: string, t1: int, t2: int)
    requires Consistent(s) && NoLeak(s)
    ensures var s1 := Schedule(s, g, key, t1);
      var s2 := Schedule(s1, g, key, t2);
      && Keys(TableOf(s2.jobs, g)) == Keys(TableOf(s1.jobs, g))
      && Find(TableOf(s2.jobs, g), key).Some?
      && TableOf(s2.jobs, g)[Find(TableOf(s2.jobs, g), key).value].time == t2
      && s2.timers[|s.timers|].cancelled
      && !s2.timers[|s.timers| + 1].cancelled
      && (forall h | 0 <= h < |s2.timers| && !s2.timers[h].cancelled
            && s2.timers[h].guild == g && s2.timers[h].key == key :: h == |s.timers| + 1)
  {
    var s1 := Schedule(s, g, key, t1);
    ScheduleConsistent(s, g, key, t1);
    ScheduleNoLeak(s, g, key, t1);
    ScheduleEffect(s, g, key, t1);
    var s2 := Schedule(s1, g, key, t2);
    ScheduleNoLeak(s1, g, key, t2);
    ScheduleEffect(s1, g, key, t2);
    var t := TableOf(s1.jobs, g);
    assert TableOf(s2.jobs, g) == Put(t, Entry(key, t2, |s1.timers|));
    PutKeepsKeys(t, Entry(key, t2, |s1.timers|));
    forall h | 0 <= h < |s2.timers| && !s2.timers[h].cancelled && s2.timers[h].guild == g && s2.timers[h].key == key
      ensures h == |s.timers| + 1
    {
      OneLiveTimerPerJob(s2, h, |s.timers| + 1);
    }
  }

  /** Storing under a key the table has keeps its keys and their order. */
  lemma PutKeepsKeys(t: Table, e: Entry)
    requires Find(t, e.key).Some?
    ensures Keys(Put(t, e)) == Keys(t)
  {
    var r := Put(t, e);
    assert forall j :: 0 <= j < |t| ==> Keys(r)[j] == Keys(t)[j];
  }


  /** The entries after a deletion at `i` are those before it, shifted down by one past `i`. */
  /** Cancelling keeps every table's keys unique and every entry's timer live. */
  lemma UnscheduleConsistent(s: State, g: string, key: string)
    requires Consistent(s)
    ensures Consistent(Unschedule(s, g, key).0)
  {
    var t := TableOf(s.jobs, g);
    TableOfUnique(s, g);
    DeleteSpec(t, key);
    var s' := Unschedule(s, g, key).0;
    if Find(t, key).Some? {
      var i := Find(t, key).value;
      var victim := t[i].handle;
      assert Installed(s, g, t[i]);
      assert s'.timers == CancelTimer(s.timers, victim);
      forall g', j | g' in s'.jobs && 0 <= j < |s'.jobs[g']| ensures Installed(s', g', s'.jobs[g'][j]) {
        var en;
        if g' == g {
          en := t[if j < i then j else j + 1];
        } else {
          en := s.jobs[g'][j];
        }
        assert s'.jobs[g'][j] == en;
        assert Installed(s, g', en);
        assert en.handle != victim;
      }
    }
  }

  /** Cancelling one name leaves the handle of every other name of every guild as it was. */
  lemma UnscheduleOthers(s: State, g: string, key: string, g': string, k: string)
    requires UniqueKeys(TableOf(s.jobs, g)) && (g' != g || k != key)
    ensures LiveHandle(Unschedule(s, g, key).0.jobs, g', k) == LiveHandle(s.jobs, g', k)
  {
    var t := TableOf(s.jobs, g);
    var jobs' := Unschedule(s, g, key).0.jobs;
    if g' != g {
      assert TableOf(jobs', g') == TableOf(s.jobs, g');
    } else {
      DeleteSpec(t, key);
      assert TableOf(jobs', g) == Delete(t, key);
    }
  }

  /** Cancelling loses no timer. */
  lemma UnscheduleNoLeak(s: State, g: string, key: string)
    requires Consistent(s) && NoLeak(s)
    ensures NoLeak(Unschedule(s, g, key).0)
  {
    TableOfUnique(s, g);
    var s' := Unschedule(s, g, key).0;
    forall h | 0 <= h < |s'.timers| && !s'.timers[h].cancelled
      ensures LiveHandle(s'.jobs, s'.timers[h].guild, s'.timers[h].key) == Some(h)
    {
      var tm := s.timers[h];
      assert s'.timers[h] == tm;
      assert LiveHandle(s.jobs, tm.guild, tm.key) == Some(h);
      UnscheduleOthers(s, g, key, tm.guild, tm.key);
    }
  }

  /**
   * `cancelJob` reports whether the name was stored; if it was, its timer is
   * cancelled and the name is gone, otherwise nothing changes but that the
   * guild now has a table. Other guilds' tables are untouched.
   */
  lemma UnscheduleEffect(s: State, g: string, key: string)
    requires Consistent(s)
    ensures var (s', existed) := Unschedule(s, g, key);
      && (existed <==> LiveHandle(s.jobs, g, key).Some?)
      && (existed ==> s'.timers[LiveHandle(s.jobs, g, key).value].cancelled)
      && LiveHandle(s'.jobs, g, key).None?
      && g in s'.jobs
      && (!existed ==> s' == State(s.jobs[g := TableOf(s.jobs, g)], s.timers))
      && (forall g' | g' != g :: TableOf(s'.jobs, g') == TableOf(s.jobs, g'))
  {
    TableOfUnique(s, g);
    DeleteSpec(TableOf(s.jobs, g), key);
  }

  /** A second cancel of the same name reports that no job existed and changes nothing. */
  lemma CancelTwice(s: State, g: string, key: string)
    requires Consistent(s)
    ensures var s1 := Unschedule(s, g, key).0;
      Unschedule(s1, g, key) == (s1, false)
  {
    UnscheduleEffect(s, g, key);
    var s1 := Unschedule(s, g, key).0;
    assert s1.jobs[g := TableOf(s1.jobs, g)] == s1.jobs;
  }

  /** Restoring an entry keeps the state consistent, and loses no timer when the name was not stored yet. */
  lemma InstallSpec(s: State, g: string, key: string, time: int)
    requires Consistent(s)
    ensures Consistent(Install(s, g, key, time))
    ensures NoLeak(s) && LiveHandle(s.jobs, g, key).None? ==> NoLeak(Install(s, g, key, time))
    ensures LiveHandle(Install(s, g, key, time).jobs, g, key) == Some(|s.timers|)
  {
    TableOfUnique(s, g);
    PutSpec(TableOf(s.jobs, g), Entry(key, time, |s.timers|));
    assert Install(s, g, key, time) == Schedule(s, g, key, time) || LiveHandle(s.jobs, g, key).Some?;
    if LiveHandle(s.jobs, g, key).None? {
      ScheduleConsistent(s, g, key, time);
      if NoLeak(s) { ScheduleNoLeak(s, g, key, time); }
    } else {
      var s' := Install(s, g, key, time);
      var t := TableOf(s.jobs, g);
      var e := Entry(key, time, |s.timers|);
      forall g', i | g' in s'.jobs && 0 <= i < |s'.jobs[g']| ensures Installed(s', g', s'.jobs[g'][i]) {
        if g' != g {
          assert Installed(s, g', s.jobs[g'][i]);
        } else if s'.jobs[g][i].key != key {
          PutOthers(t, e, s'.jobs[g][i].key);
          FindAt(s'.jobs[g], i);
          assert Installed(s, g, t[i]);
        }
      }
    }
  }

  /**
   * Restoring a name that is already stored does not cancel the timer it
   * held: that timer stays live but no entry holds it any more, so it can
   * never be cancelled.
   */
  lemma InstallOverStoredLeaks(s: State, g: string, key: string, time: int)
    requires Consistent(s) && LiveHandle(s.jobs, g, key).Some?
    ensures var h := LiveHandle(s.jobs, g, key).value;
      var s' := Install(s, g, key, time);
      h < |s'.timers| && !s'.timers[h].cancelled && !NoLeak(s')
  {
    var h := LiveHandle(s.jobs, g, key).value;
    var s' := Install(s, g, key, time);
    InstallSpec(s, g, key, time);
    var t := TableOf(s.jobs, g);
    assert Installed(s, g, t[Find(t, key).value]);
    assert s'.timers[h] == s.timers[h];
    assert LiveHandle(s'.jobs, g, key) == Some(|s.timers|);
  }

  /** `writeJobs`' object: each job name with its stored milliseconds, in key order. */
  function Persisted(t: Table): (st: Stored)
    ensures |st| == |t|
    ensures forall i :: 0 <= i < |t| ==> st[i] == (t[i].key, t[i].time)
  {
    seq(|t|, i requires 0 <= i < |t| => (t[i].key, t[i].time))
  }

  /** The names of a stored object, in order. */
  function StoredKeys(st: Stored): (ks: seq<string>)
    ensures |ks| == |st| && forall i :: 0 <= i < |st| ==> ks[i] == st[i].0
  {
    seq(|st|, i requires 0 <= i < |st| => st[i].0)
  }

  /** No job name occurs twice, as in every object `JSON.parse` returns. */
  predicate UniqueStoredKeys(st: Stored) {
    forall i, j :: 0 <= i < j < |st| ==> st[i].0 != st[j].0
  }

  /** The guild gets a table if it has none; nothing else changes (`jobsForGuild`). */
  function Touch(s: State, g: string): (s': State)
    ensures forall g' :: TableOf(s'.jobs, g') == TableOf(s.jobs, g')
  {
    State(s.jobs[g := TableOf(s.jobs, g)], s.timers)
  }

  /** A guild that has a table keeps it. */
  lemma TouchPresent(s: State, g: string)
    requires g in s.jobs
    ensures Touch(s, g) == s
  {
    assert s.jobs[g := s.jobs[g]] == s.jobs;
  }

  /** Giving a guild an empty table keeps the state consistent and loses no timer. */
  lemma TouchKeeps(s: State, g: string)
    requires Consistent(s)
    ensures Consistent(Touch(s, g)) && (NoLeak(s) ==> NoLeak(Touch(s, g)))
  {
    var s' := Touch(s, g);
    forall g', i | g' in s'.jobs && 0 <= i < |s'.jobs[g']| ensures Installed(s', g', s'.jobs[g'][i]) {
      assert g' in s.jobs && s'.jobs[g'] == s.jobs[g'];
    }
  }

  /**
   * The entries of one file restored in order into the guild's table (which
   * is created first): each is stored and gets a new timer.
   */
  function RestoreFile(s: State, g: string, st: Stored): (r: State)
    ensures |r.timers| == |s.timers| + |st| && r.timers[..|s.timers|] == s.timers
    ensures s.jobs.Keys + {g} <= r.jobs.Keys
    decreases |st|
  {
    if st == [] then Touch(s, g)
    else
      var last := st[|st| - 1];
      Install(RestoreFile(s, g, st[..|st| - 1]), g, last.0, last.1)
  }

  /**
   * Restoring the files named in `names` from the directory `dir`, in order:
   * dot-files are skipped, and so is a name whose file cannot be read.
   */
  /** Reading one more entry of a file is installing it after the ones before. */
  lemma RestoreFilePrefix(s: State, g: string, st: Stored, j: nat)
    requires j < |st|
    ensures RestoreFile(s, g, st[..j + 1]) == Install(RestoreFile(s, g, st[..j]), g, st[j].0, st[j].1)
  {
    assert st[..j + 1][..j] == st[..j];
  }

  function RestoreAll(s: State, dir: map<string, Stored>, names: seq<string>): (r: State)
    ensures |r.timers| >= |s.timers| && r.timers[..|s.timers|] == s.timers
    ensures s.jobs.Keys <= r.jobs.Keys
    decreases |names|
  {
    if names == [] then s
    else
      var s0 := RestoreAll(s, dir, names[..|names| - 1]);
      var f := names[|names| - 1];
      if Hidden(f) || f !in dir then s0 else RestoreFile(s0, GuildOfFile(f), dir[f])
  }

  /** Restoring one entry changes only the guild's table, by `Put`. */
  lemma InstallTables(s: State, g: string, key: string, time: int)
    ensures TableOf(Install(s, g, key, time).jobs, g) == Put(TableOf(s.jobs, g), Entry(key, time, |s.timers|))
    ensures forall g' | g' != g :: TableOf(Install(s, g, key, time).jobs, g') == TableOf(s.jobs, g')
  {
  }

  /**
   * Restoring a guild's stored object into a guild with no jobs gives a table
   * that writes back the same object.
   */
  lemma {:induction false} RestoreFileTable(s: State, g: string, st: Stored)
    requires TableOf(s.jobs, g) == [] && UniqueStoredKeys(st)
    ensures Persisted(TableOf(RestoreFile(s, g, st).jobs, g)) == st
    decreases |st|
  {
    if st != [] {
      var init := st[..|st| - 1];
      var last := st[|st| - 1];
      RestoreFileTable(s, g, init);
      var s0 := RestoreFile(s, g, init);
      var t0 := TableOf(s0.jobs, g);
      assert Keys(t0) == StoredKeys(init);
      assert Find(t0, last.0).None?;
      InstallTables(s0, g, last.0, last.1);
      assert Persisted(t0 + [Entry(last.0, last.1, |s0.timers|)]) == st;
    }
  }

  /** Restoring a guild's file leaves other guilds' tables alone. */
  lemma {:induction false} RestoreFileOthers(s: State, g: string, st: Stored, g': string)
    requires g' != g
    ensures TableOf(RestoreFile(s, g, st).jobs, g') == TableOf(s.jobs, g')
    decreases |st|
  {
    if st != [] {
      RestoreFileOthers(s, g, st[..|st| - 1], g');
      InstallTables(RestoreFile(s, g, st[..|st| - 1]), g, st[|st| - 1].0, st[|st| - 1].1);
    }
  }

  /** Restoring a file keeps the state consistent. */
  lemma {:induction false} RestoreFileConsistent(s: State, g: string, st: Stored)
    requires Consistent(s)
    ensures Consistent(RestoreFile(s, g, st))
    decreases |st|
  {
    if st == [] {
      TouchKeeps(s, g);
    } else {
      RestoreFileConsistent(s, g, st[..|st| - 1]);
      InstallSpec(RestoreFile(s, g, st[..|st| - 1]), g, st[|st| - 1].0, st[|st| - 1].1);
    }
  }

  /** Restoring a file with distinct names into a guild with no jobs loses no timer. */
  lemma {:induction false} RestoreFileNoLeak(s: State, g: string, st: Stored)
    requires Consistent(s) && NoLeak(s) && TableOf(s.jobs, g) == [] && UniqueStoredKeys(st)
    ensures NoLeak(RestoreFile(s, g, st))
    decreases |st|
  {
    if st == [] {
      TouchKeeps(s, g);
    } else {
      var init := st[..|st| - 1];
      var last := st[|st| - 1];
      RestoreFileNoLeak(s, g, init);
      RestoreFileTable(s, g, init);
      RestoreFileConsistent(s, g, init);
      var s0 := RestoreFile(s, g, init);
      assert Keys(TableOf(s0.jobs, g)) == StoredKeys(init);
      assert LiveHandle(s0.jobs, g, last.0).None?;
      InstallSpec(s0, g, last.0, last.1);
    }
  }

  /** Distinct names in a table are distinct names in its written object. */
  lemma PersistedUnique(t: Table)
    requires UniqueKeys(t)
    ensures UniqueStoredKeys(Persisted(t))
  {
  }

  /** Restoring files that belong to other guilds leaves a guild's table alone. */
  lemma {:induction false} RestoreAllOthers(s: State, dir: map<string, Stored>, names: seq<string>, g: string)
    requires forall i :: 0 <= i < |names| ==> GuildOfFile(names[i]) != g
    ensures TableOf(RestoreAll(s, dir, names).jobs, g) == TableOf(s.jobs, g)
    decreases |names|
  {
    if names != [] {
      var f := names[|names| - 1];
      RestoreAllOthers(s, dir, names[..|names| - 1], g);
      if !Hidden(f) && f in dir {
        RestoreFileOthers(RestoreAll(s, dir, names[..|names| - 1]), GuildOfFile(f), dir[f], g);
      }
    }
  }

  /** Restoring the files of `gs` is restoring those of all but the last guild, then the last guild's file. */
  lemma RestoreAllLast(s: State, dir: map<string, Stored>, gs: seq<string>)
    requires gs != [] && !Hidden(StorageName(gs[|gs| - 1])) && StorageName(gs[|gs| - 1]) in dir
    ensures var g := gs[|gs| - 1];
      RestoreAll(s, dir, FileNames(gs)) ==
      RestoreFile(RestoreAll(s, dir, FileNames(gs[..|gs| - 1])), g, dir[StorageName(g)])
  {
    var n := |gs| - 1;
    assert FileNames(gs)[..n] == FileNames(gs[..n]);
    GuildOfStorageName(gs[n]);
  }

  /** Names from earlier guilds do not belong to a later, different guild. */
  lemma EarlierFilesOthers(s: State, dir: map<string, Stored>, gs: seq<string>, g: string)
    requires g !in gs
    ensures TableOf(RestoreAll(s, dir, FileNames(gs)).jobs, g) == TableOf(s.jobs, g)
  {
    forall i | 0 <= i < |gs| ensures GuildOfFile(FileNames(gs)[i]) != g {
      GuildOfStorageName(gs[i]);
    }
    RestoreAllOthers(s, dir, FileNames(gs), g);
  }

  /**
   * The files of distinct guilds with visible names, every one present and
   * with unique keys, whose tables are still empty.
   */
  predicate Restorable(s: State, dir: map<string, Stored>, gs: seq<string>) {
    (forall i, j :: 0 <= i < j < |gs| ==> gs[i] != gs[j]) &&
    (forall i :: 0 <= i < |gs| ==> gs[i] != "" && gs[i][0] != '.') &&
    (forall i :: 0 <= i < |gs| ==> TableOf(s.jobs, gs[i]) == []) &&
    (forall i :: 0 <= i < |gs| ==> StorageName(gs[i]) in dir && UniqueStoredKeys(dir[StorageName(gs[i])]))
  }

  /** Dropping the last guild keeps the rest restorable; the last file is visible and for a guild none of the others is. */
  lemma RestorableInit(s: State, dir: map<string, Stored>, gs: seq<string>)
    requires Restorable(s, dir, gs) && gs != []
    ensures Restorable(s, dir, gs[..|gs| - 1])
    ensures forall i :: 0 <= i < |gs| - 1 ==> gs[..|gs| - 1][i] == gs[i]
    ensures gs[|gs| - 1] !in gs[..|gs| - 1]
    ensures !Hidden(StorageName(gs[|gs| - 1])) && StorageName(gs[|gs| - 1]) in dir
    ensures UniqueStoredKeys(dir[StorageName(gs[|gs| - 1])]) && TableOf(s.jobs, gs[|gs| - 1]) == []
  {
    var n := |gs| - 1;
    assert forall i :: 0 <= i < n ==> gs[..n][i] == gs[i];
    assert StorageName(gs[n])[0] == gs[n][0];
  }

  /**
   * Restoring the files written for distinct guilds whose tables are empty
   * gives each of those guilds a table that writes back its file.
   */
  lemma {:induction false} RestoreAllTable(s: State, dir: map<string, Stored>, gs: seq<string>, i: nat)
    requires Restorable(s, dir, gs) && i < |gs|
    ensures Persisted(TableOf(RestoreAll(s, dir, FileNames(gs)).jobs, gs[i])) == dir[StorageName(gs[i])]
    decreases |gs|
  {
    var n := |gs| - 1;
    if i == n {
      RestoreAllTableLast(s, dir, gs);
    } else {
      var g := gs[n];
      var init := gs[..n];
      RestorableInit(s, dir, gs);
      var r0 := RestoreAll(s, dir, FileNames(init));
      RestoreAllLast(s, dir, gs);
      assert Persisted(TableOf(r0.jobs, gs[i])) == dir[StorageName(gs[i])] by {
        RestoreAllTable(s, dir, init, i);
      }
      RestoreFileOthers(r0, g, dir[StorageName(g)], gs[i]);
    }
  }

  /** The last guild's table is the one its file held. */
  lemma RestoreAllTableLast(s: State, dir: map<string, Stored>, gs: seq<string>)
    requires Restorable(s, dir, gs) && gs != []
    ensures var g := gs[|gs| - 1];
      Persisted(TableOf(RestoreAll(s, dir, FileNames(gs)).jobs, g)) == dir[StorageName(g)]
  {
    var n := |gs| - 1;
    var g := gs[n];
    var init := gs[..n];
    RestorableInit(s, dir, gs);
    var r0 := RestoreAll(s, dir, FileNames(init));
    RestoreAllLast(s, dir, gs);
    assert TableOf(r0.jobs, g) == [] by {
      EarlierFilesOthers(s, dir, init, g);
    }
    RestoreFileTable(r0, g, dir[StorageName(g)]);
  }



  /**
   * Restoring the files written for distinct guilds whose tables are empty
   * keeps the state consistent and loses no timer.
   */
  lemma {:induction false} RestoreAllKeeps(s: State, dir: map<string, Stored>, gs: seq<string>)
    requires Consistent(s) && NoLeak(s)
    requires Restorable(s, dir, gs)
    ensures Consistent(RestoreAll(s, dir, FileNames(gs))) && NoLeak(RestoreAll(s, dir, FileNames(gs)))
    decreases |gs|
  {
    if gs != [] {
      var n := |gs| - 1;
      var g := gs[n];
      var f := StorageName(g);
      RestorableInit(s, dir, gs);
      RestoreAllKeeps(s, dir, gs[..n]);
      var r0 := RestoreAll(s, dir, FileNames(gs[..n]));
      EarlierFilesOthers(s, dir, gs[..n], g);
      RestoreAllLast(s, dir, gs);
      RestoreFileConsistent(r0, g, dir[f]);
      RestoreFileNoLeak(r0, g, dir[f]);
    }
  }

  /**
   * Restart: after `writeJobs` has written every guild of a consistent state
   * (guild ids that make visible file names), reading the directory back into
   * a fresh scheduler gives every guild the same job names in the same order
   * with the same times, one live timer per job and no lost timer.
   */
  lemma RestartRestoresJobs(orig: State, dir: map<string, Stored>, gs: seq<string>)
    requires Consistent(orig)
    requires forall i, j :: 0 <= i < j < |gs| ==> gs[i] != gs[j]
    requires forall i :: 0 <= i < |gs| ==> gs[i] != "" && gs[i][0] != '.'
    requires forall i :: 0 <= i < |gs| ==> StorageName(gs[i]) in dir && dir[StorageName(gs[i])] == Persisted(TableOf(orig.jobs, gs[i]))
    ensures var r := RestoreAll(State(map[], []), dir, FileNames(gs));
      && Consistent(r) && NoLeak(r)
      && forall i :: 0 <= i < |gs| ==> Persisted(TableOf(r.jobs, gs[i])) == Persisted(TableOf(orig.jobs, gs[i]))
  {
    forall i | 0 <= i < |gs| ensures UniqueStoredKeys(dir[StorageName(gs[i])]) {
      TableOfUnique(orig, gs[i]);
      PersistedUnique(TableOf(orig.jobs, gs[i]));
    }
    assert Restorable(State(map[], []), dir, gs);
    forall i | 0 <= i < |gs|
      ensures Persisted(TableOf(RestoreAll(State(map[], []), dir, FileNames(gs)).jobs, gs[i])) == dir[StorageName(gs[i])]
    {
      RestoreAllTable(State(map[], []), dir, gs, i);
    }
    RestoreAllKeeps(State(map[], []), dir, gs);
  }

  const NO_TIME := "TypeError: Cannot read properties of undefined (reading 'time')"

  /**
   * `jobString`: parse the name (which throws unless it matches), look the
   * name up in the table of the guild it names (which throws when that table
   * lacks it), and describe the target in words with the stored time's
   * "H:MM" in GMT.
   */
  function JobLine(jobs: map<string, Table>, name: string, cache: Cache): Result<string>
  {
    match FromString(name, cache)
    case Err(e) => Err(e)
    case Ok(t) =>
      var tb := TableOf(jobs, t.guildId);
      match Find(tb, name)
      case None => Err(NO_TIME)
      case Some(i) =>
        match InWords(t)
        case Err(e) => Err(e)
        case Ok(words) => Ok(words + " at " + FetchTime.Gmt(FetchTime.FromMs(tb[i].time)) + " GMT")
  }

  /** `jobString` throws when the name does not parse or its guild's table lacks it; otherwise it is the target in words at the stored time. */
  lemma JobLineSpec(jobs: map<string, Table>, name: string, cache: Cache)
    ensures FromString(name, cache).Err? ==> JobLine(jobs, name, cache) == Err(FromString(name, cache).error)
    ensures FromString(name, cache).Ok? && Find(TableOf(jobs, FromString(name, cache).value.guildId), name).None? ==>
      JobLine(jobs, name, cache) == Err(NO_TIME)
    ensures JobLine(jobs, name, cache).Ok? ==>
      var t := FromString(name, cache).value;
      var tb := TableOf(jobs, t.guildId);
      && Find(tb, name).Some?
      && InWords(t).Ok?
      && JobLine(jobs, name, cache).value == InWords(t).value + " at " + FetchTime.Gmt(FetchTime.FromMs(tb[Find(tb, name).value].time)) + " GMT"
  {
  }

  /** A line depends on the tables only, not on which guilds have one. */
  lemma JobLineTables(j1: map<string, Table>, j2: map<string, Table>, name: string, cache: Cache)
    requires forall g :: TableOf(j1, g) == TableOf(j2, g)
    ensures JobLine(j1, name, cache) == JobLine(j2, name, cache)
  {
  }

  /** `map(...)` over results that may throw: the first error, or all the values in order. */
  function Collect(rs: seq<Result<string>>): (r: Result<seq<string>>)
    ensures r.Ok? <==> forall i :: 0 <= i < |rs| ==> rs[i].Ok?
    ensures r.Ok? ==> |r.value| == |rs| && forall i :: 0 <= i < |rs| ==> r.value[i] == rs[i].value
    decreases |rs|
  {
    if rs == [] then Ok([])
    else
      match rs[0]
      case Err(e) => Err(e)
      case Ok(line) =>
        match Collect(rs[1..])
        case Err(e) =>
          assert forall i :: 1 <= i < |rs| ==> rs[i] == rs[1..][i - 1];
          Err(e)
        case Ok(rest) => Ok([line] + rest)
  }

  /** The first error is the one `Collect` reports. */
  lemma {:induction false} CollectFirstError(rs: seq<Result<string>>, k: nat)
    requires k < |rs| && rs[k].Err?
    requires forall i :: 0 <= i < k ==> rs[i].Ok?
    ensures Collect(rs) == Err(rs[k].error)
    decreases k
  {
    if k > 0 {
      CollectFirstError(rs[1..], k - 1);
    }
  }

  /** When nothing throws, `Collect` gives back exactly the values. */
  lemma CollectValues(rs: seq<Result<string>>, vs: seq<string>)
    requires |rs| == |vs| && forall i :: 0 <= i < |rs| ==> rs[i] == Ok(vs[i])
    ensures Collect(rs) == Ok(vs)
  {
    var r := Collect(rs);
    assert r.Ok?;
    assert forall i :: 0 <= i < |vs| ==> r.value[i] == vs[i];
    assert r.value == vs;
  }

  /** The line of each job name of the guild, in key order. */
  function JobLines(jobs: map<string, Table>, g: string, cache: Cache): (rs: seq<Result<string>>)
    ensures |rs| == |TableOf(jobs, g)|
  {
    seq(|TableOf(jobs, g)|, i requires 0 <= i < |TableOf(jobs, g)| => JobLine(jobs, TableOf(jobs, g)[i].key, cache))
  }

  /** `listJobs`: one line per job name of the guild, in key order, joined by newlines; the first line that throws makes it throw. */
  function ListJobsText(jobs: map<string, Table>, g: string, cache: Cache): (r: Result<string>)
    ensures r.Ok? <==> forall i :: 0 <= i < |TableOf(jobs, g)| ==> JobLines(jobs, g, cache)[i].Ok?
    ensures TableOf(jobs, g) == [] ==> r == Ok("")
  {
    match Collect(JobLines(jobs, g, cache))
    case Err(e) => Err(e)
    case Ok(lines) => Ok(Join(lines, "\n"))
  }

  /** A line that does not throw extends the lines collected so far. */
  lemma CollectExtends(rs: seq<Result<string>>, k: nat, lines: seq<string>)
    requires k < |rs| && rs[k].Ok? && Collect(rs[..k]) == Ok(lines)
    ensures Collect(rs[..k + 1]) == Ok(lines + [rs[k].value])
  {
    assert forall i :: 0 <= i < k ==> rs[..k][i] == rs[i];
    CollectValues(rs[..k + 1], lines + [rs[k].value]);
  }

  /** The first line that throws, after lines that did not, is what the whole listing throws. */
  lemma CollectStops(rs: seq<Result<string>>, k: nat)
    requires k < |rs| && rs[k].Err? && Collect(rs[..k]).Ok?
    ensures Collect(rs) == Err(rs[k].error)
  {
    assert forall i :: 0 <= i < k ==> rs[..k][i] == rs[i];
    CollectFirstError(rs, k);
  }

  /** The k-th line of a listing, read from any jobs with the same tables. */
  lemma JobLineAt(j1: map<string, Table>, j2: map<string, Table>, g: string, cache: Cache, k: nat)
    requires forall g' :: TableOf(j1, g') == TableOf(j2, g')
    requires k < |TableOf(j2, g)|
    ensures JobLines(j2, g, cache)[k] == JobLine(j1, TableOf(j2, g)[k].key, cache)
  {
    JobLineTables(j1, j2, TableOf(j2, g)[k].key, cache);
  }

  /**
   * A job scheduled for a target whose recipient is still cached is listed as
   * the target in words at the hour and minute (GMT) of its stored time.
   */
  lemma ScheduledJobListed(s: State, t: FetchTarget, ms: int, cache: Cache)
    requires Consistent(s)
    requires t.Target? && t.what.Some? && IsKind(t.what.value)
    requires |t.guildId| > 0 && AllDigits(t.guildId)
    requires t.recipient.entity.Some?
    requires |t.recipient.entity.value.id| > 0 && AllDigits(t.recipient.entity.value.id)
    requires Cached(t.recipient.entity.value, cache)
    ensures ToString(t).Ok?
    ensures JobLine(Schedule(s, t.guildId, ToString(t).value, ms).jobs, ToString(t).value, cache)
      == Ok(InWords(t).value + " at " + FetchTime.Gmt(FetchTime.FromMs(ms)) + " GMT")
  {
    ToStringFromString(t, cache);
    ScheduleEffect(s, t.guildId, ToString(t).value, ms);
    JobLineSpec(Schedule(s, t.guildId, ToString(t).value, ms).jobs, ToString(t).value, cache);
  }

  /** `runJob`: parse the name, log the target (which throws when its recipient is not cached), dispatch it. */
  function RunJob(name: string, cache: Cache): (r: Result<Fetcher.Handler>)
    ensures r.Ok? ==> FromString(name, cache).Ok? && r == Fetcher.Dispatch(FromString(name, cache).value)
    ensures FromString(name, cache).Ok? && FromString(name, cache).value.recipient.entity.None? ==> r.Err?
  {
    match FromString(name, cache)
    case Err(e) => Err(e)
    case Ok(t) =>
      match ForLog(t)
      case Err(e) => Err(e)
      case Ok(_) => Fetcher.Dispatch(t)
  }

  /** A timer fires the handler of the target it was scheduled for, as long as the recipient is cached. */
  lemma RunJobDispatchesTarget(t: FetchTarget, cache: Cache)
    requires t.Target? && t.what.Some? && IsKind(t.what.value)
    requires |t.guildId| > 0 && AllDigits(t.guildId)
    requires t.recipient.entity.Some?
    requires |t.recipient.entity.value.id| > 0 && AllDigits(t.recipient.entity.value.id)
    requires Cached(t.recipient.entity.value, cache)
    ensures ToString(t).Ok?
    ensures RunJob(ToString(t).value, cache) == Fetcher.Dispatch(t)
    ensures RunJob(ToString(t).value, cache).Ok?
  {
    ToStringFromString(t, cache);
  }

  /**
   * The scheduler object: the per-guild job tables, the timers it has
   * started, and the schedule directory it writes to.
   */
  class Scheduler {
    var jobs: map<string, Table>
    var timers: seq<Timer>
    /** The schedule directory: file name to the stored object. */
    var files: map<string, Stored>

    function StateOf(): State
      reads this
    {
      State(jobs, timers)
    }

    ghost predicate Valid()
      reads this
    {
      Consistent(StateOf())
    }

    /** The constructor: no jobs, then the directory's files are read in the order listed. */
    constructor (dir: map<string, Stored>, names: seq<string>)
      ensures StateOf() == RestoreAll(State(map[], []), dir, names)
      ensures files == dir
      ensures Valid()
    {
      jobs := map[];
      timers := [];
      files := dir;
      new;
      ReadJobs(names);
    }

    /** `jobsForGuild`: the guild's table, created empty on first access. */
    method JobsForGuild(g: string) returns (t: Table)
      requires Valid()
      modifies this
      ensures t == TableOf(old(jobs), g)
      ensures StateOf() == Touch(old(StateOf()), g)
      ensures files == old(files)
      ensures Valid()
      ensures old(NoLeak(StateOf())) ==> NoLeak(StateOf())
    {
      TouchKeeps(StateOf(), g);
      if g !in jobs {
        jobs := jobs[g := []];
      }
      t := jobs[g];
    }

    /** `writeJobs`: the guild's file holds its names and times, in key order. */
    method WriteJobs(g: string)
      requires Valid()
      modifies this
      ensures StateOf() == Touch(old(StateOf()), g)
      ensures files == old(files)[StorageName(g) := Persisted(TableOf(old(jobs), g))]
      ensures Valid()
      ensures old(NoLeak(StateOf())) ==> NoLeak(StateOf())
    {
      var t := JobsForGuild(g);
      files := files[g + ".json" := Persisted(t)];
    }

    /**
     * `scheduleJob`: the target's job name (computing it throws when the
     * recipient is undefined) now holds the given time and a new timer, the
     * timer it held is cancelled, and the guild's file is rewritten.
     */
    method ScheduleJob(target: FetchTarget, when: FetchTime.FetchTime) returns (thrown: Option<string>)
      requires Valid() && when.date.Some?
      modifies this
      ensures ToString(target).Err? ==> thrown == Some(ToString(target).error) && unchanged(this)
      ensures ToString(target).Ok? ==>
        && thrown.None?
        && StateOf() == Schedule(old(StateOf()), target.guildId, ToString(target).value, when.date.value)
        && files == old(files)[StorageName(target.guildId) := Persisted(TableOf(jobs, target.guildId))]
      ensures Valid()
      ensures old(NoLeak(StateOf())) ==> NoLeak(StateOf())
    {
      var name := ToString(target);
      if name.Err? {
        return Some(name.error);
      }
      var key := name.value;
      var g := target.guildId;
      ghost var s0 := StateOf();
      ScheduleConsistent(s0, g, key, when.date.value);
      if NoLeak(s0) {
        ScheduleNoLeak(s0, g, key, when.date.value);
      }
      var guildJobs := JobsForGuild(g);
      Replace(s0, g, key, when.date.value, guildJobs);
      ghost var s1 := StateOf();
      TouchPresent(s1, g);
      WriteJobs(g);
      thrown := None;
    }

    /**
     * `cancelJob`: whether the target's job name was stored (computing it
     * throws when the recipient is undefined); if it was, its timer is
     * cancelled, the name deleted and the guild's file rewritten.
     */
    /** The middle of `scheduleJob`, once the guild's table is read: cancel the old timer, assign the entry, start its timer. */
    method Replace(ghost s0: State, g: string, key: string, time: int, guildJobs: Table)
      requires StateOf() == Touch(s0, g) && guildJobs == TableOf(s0.jobs, g)
      modifies this
      ensures StateOf() == Schedule(s0, g, key, time)
      ensures files == old(files)
    {
      var job := Find(guildJobs, key);
      if job.Some? {
        timers := CancelTimer(timers, guildJobs[job.value].handle);
      }
      ScheduleParts(s0, g, key, time, timers);
      var table := Put(guildJobs, Entry(key, time, |timers|));
      assert jobs[g := table] == s0.jobs[g := table];
      jobs := jobs[g := table];
      timers := timers + [Timer(g, key, time, false)];
    }

    /** The middle of `cancelJob`, once the guild's table is read: when the name is there, cancel its timer and delete it. */
    method Drop(ghost s0: State, g: string, key: string, guildJobs: Table) returns (found: bool)
      requires StateOf() == Touch(s0, g) && guildJobs == TableOf(s0.jobs, g)
      modifies this
      ensures (StateOf(), found) == Unschedule(s0, g, key)
      ensures files == old(files)
    {
      UnscheduleParts(s0, g, key);
      var job := Find(guildJobs, key);
      if job.None? {
        return false;
      }
      timers := CancelTimer(timers, guildJobs[job.value].handle);
      assert jobs[g := Delete(guildJobs, key)] == s0.jobs[g := Delete(guildJobs, key)];
      jobs := jobs[g := Delete(guildJobs, key)];
      found := true;
    }

    method CancelJob(target: FetchTarget) returns (r: Result<bool>)
      requires Valid()
      modifies this
      ensures ToString(target).Err? ==> r == Err(ToString(target).error) && unchanged(this)
      ensures ToString(target).Ok? ==>
        && r.Ok?
        && (StateOf(), r.value) == Unschedule(old(StateOf()), target.guildId, ToString(target).value)
        && files == (if r.value then old(files)[StorageName(target.guildId) := Persisted(TableOf(jobs, target.guildId))]
                     else old(files))
      ensures Valid()
      ensures old(NoLeak(StateOf())) ==> NoLeak(StateOf())
    {
      var name := ToString(target);
      if name.Err? {
        return Err(name.error);
      }
      var key := name.value;
      var g := target.guildId;
      ghost var s0 := StateOf();
      UnscheduleConsistent(s0, g, key);
      if NoLeak(s0) {
        UnscheduleNoLeak(s0, g, key);
      }
      var guildJobs := JobsForGuild(g);
      var found := Drop(s0, g, key, guildJobs);
      if !found {
        return Ok(false);
      }
      ghost var s1 := StateOf();
      TouchPresent(s1, g);
      WriteJobs(g);
      r := Ok(true);
    }

    /**
     * `jobString`: the name's line; looking the name up in the table of the
     * guild it names may give that guild an empty table.
     */
    method JobString(name: string, cache: Cache) returns (r: Result<string>)
      requires Valid()
      modifies this
      ensures r == JobLine(old(jobs), name, cache)
      ensures old(jobs).Keys <= jobs.Keys
      ensures forall g' :: TableOf(jobs, g') == TableOf(old(jobs), g')
      ensures timers == old(timers) && files == old(files)
      ensures Valid()
    {
      var parsed := FromString(name, cache);
      if parsed.Err? {
        return Err(parsed.error);
      }
      var target := parsed.value;
      var table := JobsForGuild(target.guildId);
      var at := Find(table, name);
      if at.None? {
        return Err(NO_TIME);
      }
      var when := FetchTime.FromMs(table[at.value].time);
      var words := InWords(target);
      if words.Err? {
        return Err(words.error);
      }
      r := Ok(words.value + " at " + FetchTime.Gmt(when) + " GMT");
    }

    /** `listJobs`: one line per job of the guild, in key order; the first line that throws makes it throw. */
    method ListJobs(g: string, cache: Cache) returns (r: Result<string>)
      requires Valid()
      modifies this
      ensures r == ListJobsText(old(jobs), g, cache)
      ensures g in jobs && old(jobs).Keys <= jobs.Keys
      ensures forall g' :: TableOf(jobs, g') == TableOf(old(jobs), g')
      ensures timers == old(timers) && files == old(files)
      ensures Valid()
    {
      ghost var jobs0 := jobs;
      var guildJobs := JobsForGuild(g);
      var lines := CollectLines(g, cache, guildJobs, jobs0);
      r := if lines.Err? then Err(lines.error) else Ok(Join(lines.value, "\n"));
    }

    /** The `map` of `listJobs`: one `jobString` per name of the guild, in key order, stopping at the first that throws. */
    method CollectLines(g: string, cache: Cache, guildJobs: Table, ghost jobs0: map<string, Table>) returns (lines: Result<seq<string>>)
      requires Valid() && g in jobs && guildJobs == TableOf(jobs0, g)
      requires forall g' :: TableOf(jobs, g') == TableOf(jobs0, g')
      modifies this
      ensures lines == Collect(JobLines(jobs0, g, cache))
      ensures g in jobs && old(jobs).Keys <= jobs.Keys
      ensures forall g' :: TableOf(jobs, g') == TableOf(jobs0, g')
      ensures timers == old(timers) && files == old(files)
      ensures Valid()
    {
      ghost var rs := JobLines(jobs0, g, cache);
      var done: seq<string> := [];
      var k := 0;
      while k < |guildJobs|
        invariant 0 <= k <= |guildJobs| == |rs|
        invariant Valid()
        invariant g in jobs && old(jobs).Keys <= jobs.Keys
        invariant forall g' :: TableOf(jobs, g') == TableOf(jobs0, g')
        invariant timers == old(timers) && files == old(files)
        invariant Collect(rs[..k]) == Ok(done)
      {
        var line := NextLine(guildJobs[k].key, g, cache, k, jobs0);
        if line.Err? {
          CollectStops(rs, k);
          return Err(line.error);
        }
        CollectExtends(rs, k, done);
        done := done + [line.value];
        k := k + 1;
      }
      assert rs[..k] == rs;
      lines := Ok(done);
    }

    /** The k-th line of a listing, by `jobString`. */
    method NextLine(name: string, g: string, cache: Cache, k: nat, ghost jobs0: map<string, Table>) returns (line: Result<string>)
      requires Valid()
      requires forall g' :: TableOf(jobs, g') == TableOf(jobs0, g')
      requires k < |TableOf(jobs0, g)| && name == TableOf(jobs0, g)[k].key
      modifies this
      ensures line == JobLines(jobs0, g, cache)[k]
      ensures old(jobs).Keys <= jobs.Keys
      ensures forall g' :: TableOf(jobs, g') == TableOf(jobs0, g')
      ensures timers == old(timers) && files == old(files)
      ensures Valid()
    {
      JobLineAt(jobs, jobs0, g, cache, k);
      line := JobString(name, cache);
    }

    /**
     * `readJobs`: every listed file that is not a dot-file and can be read is
     * restored into the guild its name gives, entry by entry, without
     * cancelling a timer already stored under the same name.
     */
    method ReadJobs(names: seq<string>)
      requires Valid()
      modifies this
      ensures StateOf() == RestoreAll(old(StateOf()), files, names)
      ensures files == old(files)
      ensures Valid()
    {
      ghost var s0 := StateOf();
      var k := 0;
      while k < |names|
        invariant 0 <= k <= |names|
        invariant files == old(files)
        invariant StateOf() == RestoreAll(s0, files, names[..k])
        invariant Valid()
      {
        var f := names[k];
        ghost var before := StateOf();
        assert names[..k + 1][..k] == names[..k];
        if !Hidden(f) && f in files {
          assert RestoreAll(s0, files, names[..k + 1]) == RestoreFile(before, GuildOfFile(f), files[f]);
          ReadFile(GuildOfFile(f), files[f]);
        } else {
          assert RestoreAll(s0, files, names[..k + 1]) == before;
        }
        k := k + 1;
      }
      assert names[..|names|] == names;
    }

    /** One file read back: the guild gets a table, then each entry is stored and gets a new timer, in key order. */
    method ReadFile(g: string, st: Stored)
      requires Valid()
      modifies this
      ensures StateOf() == RestoreFile(old(StateOf()), g, st)
      ensures files == old(files)
      ensures Valid()
    {
      ghost var s0 := StateOf();
      var guildJobs := JobsForGuild(g);
      StoreEntries(s0, g, st);
      RestoreFileConsistent(s0, g, st);
    }

    /** The `map` over the parsed entries of one file, once the guild's table exists. */
    method StoreEntries(ghost s0: State, g: string, st: Stored)
      requires StateOf() == Touch(s0, g)
      modifies this
      ensures StateOf() == RestoreFile(s0, g, st)
      ensures files == old(files)
    {
      var j := 0;
      while j < |st|
        invariant 0 <= j <= |st|
        invariant files == old(files)
        invariant StateOf() == RestoreFile(s0, g, st[..j])
      {
        RestoreFilePrefix(s0, g, st, j);
        Store(g, st[j].0, st[j].1);
        j := j + 1;
      }
      assert st[..|st|] == st;
    }

    /** One restored entry: stored under its name with a new timer, without cancelling any timer. */
    method Store(g: string, key: string, ms: int)
      modifies this
      ensures StateOf() == Install(old(StateOf()), g, key, ms)
      ensures files == old(files)
    {
      jobs := jobs[g := Put(TableOf(jobs, g), Entry(key, ms, |timers|))];
      timers := timers + [Timer(g, key, ms, false)];
    }
  }
}

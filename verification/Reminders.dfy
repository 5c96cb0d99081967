/** The reminder sweep of one firm (reminders/sweep.py): which nudges are due, idempotent dispatch through
    the unique index of `reminder_log`, and the report's counters. */
module Reminders {
  import opened Wrappers
  import opened Periods
  import opened Calendar

  datatype Channel = Email | Whatsapp

  /** The columns of `reminder_log_idempotency`. */
  datatype Key = Key(gid: nat, period: Period, returnType: ReturnType, daysBefore: int, channel: Channel, user: nat)

  datatype Gid = Gid(id: nat, client: nat, scheme: nat)

  /** What a firm's transaction reads. Configured days are at least 1. */
  datatype Data = Data(
    gids: seq<Gid>, dueDays: map<(ReturnType, nat), nat>,
    filed: set<(nat, Period, ReturnType)>, recipients: map<nat, seq<nat>>)

  predicate Sound(d: Data) { forall k :: k in d.dueDays ==> d.dueDays[k] >= 1 }

  datatype Report = Report(dispatched: nat, filed: nat, duplicate: nat, noDueDate: nat, notAtThreshold: nat)

  /** The log (with `sent_at` set or not), everything sent so far, how many sends failed, and the report. */
  datatype State = State(log: map<Key, bool>, emails: seq<Key>, whatsapps: seq<Key>, failures: nat, report: Report)

  // ----- one recipient -----

  function WhatsappKey(k: Key): Key { k.(channel := Whatsapp) }

  /** `_dispatch_one`: plant the row or skip; send; then the admin's WhatsApp under its own row. */
  function Dispatch(s: State, k: Key, delivered: bool): State {
    if k in s.log then s.(report := s.report.(duplicate := s.report.duplicate + 1))
    else if !delivered then s.(log := s.log[k := false], failures := s.failures + 1)
    else
      var t := s.(log := s.log[k := true], emails := s.emails + [k],
                  report := s.report.(dispatched := s.report.dispatched + 1));
      var w := WhatsappKey(k);
      if w in t.log then t else t.(log := t.log[w := true], whatsapps := t.whatsapps + [w])
  }

  // ----- one (gstin, return type, period) -----

  datatype Task = Task(gid: Gid, returnType: ReturnType, period: Period)

  datatype Fate = NoDueDate | NotAtThreshold | AlreadyFiled | Nudge(daysOut: int)

  function FateOf(d: Data, today: Date, t: Task): Fate
    requires Sound(d) && ValidDate(today) && ValidPeriod(t.period)
  {
    var k := (t.returnType, t.gid.scheme);
    if k !in d.dueDays then NoDueDate
    else
      var out := DaysOut(DueDate(d.dueDays[k], t.period), today);
      if out !in THRESHOLDS then NotAtThreshold
      else if (t.gid.id, t.period, t.returnType) in d.filed then AlreadyFiled
      else Nudge(out)
  }

  function UsersOf(d: Data, g: Gid): seq<nat> { if g.client in d.recipients then d.recipients[g.client] else [] }

  function KeyFor(t: Task, daysOut: int, user: nat): Key {
    Key(t.gid.id, t.period, t.returnType, daysOut, Email, user)
  }

  function Keys(t: Task, daysOut: int, users: seq<nat>): seq<Key> {
    seq(|users|, i requires 0 <= i < |users| => KeyFor(t, daysOut, users[i]))
  }

  function DispatchAll(s: State, keys: seq<Key>, mail: Key -> bool): State {
    if keys == [] then s
    else
      var k := keys[|keys| - 1];
      Dispatch(DispatchAll(s, keys[..|keys| - 1], mail), k, mail(k))
  }

  /** `_maybe_dispatch`. */
  function Visit(s: State, d: Data, today: Date, t: Task, mail: Key -> bool): State
    requires Sound(d) && ValidDate(today) && ValidPeriod(t.period)
  {
    match FateOf(d, today, t)
    case NoDueDate => s.(report := s.report.(noDueDate := s.report.noDueDate + 1))
    case NotAtThreshold => s.(report := s.report.(notAtThreshold := s.report.notAtThreshold + 1))
    case AlreadyFiled => s.(report := s.report.(filed := s.report.filed + 1))
    case Nudge(out) => DispatchAll(s, Keys(t, out, UsersOf(d, t.gid)), mail)
  }

  // ----- one sweep -----

  predicate ValidTasks(ts: seq<Task>) { forall i :: 0 <= i < |ts| ==> ValidPeriod(ts[i].period) }

  predicate ValidPeriods(ps: seq<Period>) { forall i :: 0 <= i < |ps| ==> ValidPeriod(ps[i]) }

  function PeriodTasks(g: Gid, rt: ReturnType, ps: seq<Period>): seq<Task> {
    seq(|ps|, i requires 0 <= i < |ps| => Task(g, rt, ps[i]))
  }

  function GidTasks(g: Gid, ps: seq<Period>): seq<Task> {
    PeriodTasks(g, GSTR1, ps) + PeriodTasks(g, GSTR3B, ps)
  }

  function Tasks(gids: seq<Gid>, ps: seq<Period>): seq<Task> {
    if gids == [] then [] else Tasks(gids[..|gids| - 1], ps) + GidTasks(gids[|gids| - 1], ps)
  }

  function VisitAll(s: State, d: Data, today: Date, ts: seq<Task>, mail: Key -> bool): State
    requires Sound(d) && ValidDate(today) && ValidTasks(ts)
  {
    if ts == [] then s
    else Visit(VisitAll(s, d, today, ts[..|ts| - 1], mail), d, today, ts[|ts| - 1], mail)
  }

  lemma {:induction false} TasksValid(gids: seq<Gid>, ps: seq<Period>)
    requires ValidPeriods(ps) && |ps| == 3
    ensures ValidTasks(Tasks(gids, ps)) && |Tasks(gids, ps)| == |gids| * 2 * 3
  {
    if gids != [] {
      TasksValid(gids[..|gids| - 1], ps);
    }
  }

  function SweepTasks(d: Data, today: Date): (ts: seq<Task>)
    requires ValidDate(today) && today.y >= 2
    ensures ValidTasks(ts) && |ts| == |d.gids| * 2 * 3
  {
    TasksValid(d.gids, Candidates(today));
    Tasks(d.gids, Candidates(today))
  }

  predicate CanSweep(d: Data, today: Date) { Sound(d) && ValidDate(today) && today.y >= 2 }

  function Sweep(s: State, d: Data, today: Date, mail: Key -> bool): State
    requires CanSweep(d, today)
  {
    VisitAll(s, d, today, SweepTasks(d, today), mail)
  }

  lemma {:induction false} VisitAllConcat(s: State, d: Data, today: Date, a: seq<Task>, b: seq<Task>, mail: Key -> bool)
    requires Sound(d) && ValidDate(today) && ValidTasks(a) && ValidTasks(b)
    ensures VisitAll(s, d, today, a + b, mail) == VisitAll(VisitAll(s, d, today, a, mail), d, today, b, mail)
  {
    if b == [] {
      assert a + b == a;
    } else {
      VisitAllConcat(s, d, today, a, b[..|b| - 1], mail);
      assert (a + b)[..|a + b| - 1] == a + b[..|b| - 1];
    }
  }

  class Sweeper {
    var log: map<Key, bool>
    var emails: seq<Key>
    var whatsapps: seq<Key>
    var failures: nat
    var report: Report

    function Contents(): State
      reads this
    {
      State(log, emails, whatsapps, failures, report)
    }

    constructor ()
      ensures Contents() == State(map[], [], [], 0, Report(0, 0, 0, 0, 0))
    {
      log, emails, whatsapps, failures, report := map[], [], [], 0, Report(0, 0, 0, 0, 0);
    }

    method DispatchOne(k: Key, mail: Key -> bool)
      modifies this
      ensures Contents() == Dispatch(old(Contents()), k, mail(k))
    {
      if k in log {
        report := report.(duplicate := report.duplicate + 1);
        return;
      }
      log := log[k := false];
      if !mail(k) {
        failures := failures + 1;
        return;
      }
      emails := emails + [k];
      assert log[k := true] == old(log)[k := true];
      log := log[k := true];
      report := report.(dispatched := report.dispatched + 1);
      MaybeSendAdminWhatsapp(k);
    }

    method MaybeSendAdminWhatsapp(k: Key)
      modifies this
      ensures var w, s := WhatsappKey(k), old(Contents());
        Contents() == if w in s.log then s else s.(log := s.log[w := true], whatsapps := s.whatsapps + [w])
    {
      var w := WhatsappKey(k);
      if w in log {
        return;
      }
      log := log[w := true];
      whatsapps := whatsapps + [w];
    }

    method MaybeDispatch(d: Data, today: Date, t: Task, mail: Key -> bool)
      requires Sound(d) && ValidDate(today) && ValidPeriod(t.period)
      modifies this
      ensures Contents() == Visit(old(Contents()), d, today, t, mail)
    {
      var fate := FateOf(d, today, t);
      match fate {
        case NoDueDate => report := report.(noDueDate := report.noDueDate + 1);
        case NotAtThreshold => report := report.(notAtThreshold := report.notAtThreshold + 1);
        case AlreadyFiled => report := report.(filed := report.filed + 1);
        case Nudge(out) =>
          var users := UsersOf(d, t.gid);
          ghost var keys := Keys(t, out, users);
          for i := 0 to |users|
            invariant Contents() == DispatchAll(old(Contents()), keys[..i], mail)
          {
            assert keys[..i + 1][..i] == keys[..i];
            DispatchOne(KeyFor(t, out, users[i]), mail);
          }
          assert keys[..|users|] == keys;
      }
    }

    method SweepPeriods(d: Data, today: Date, g: Gid, rt: ReturnType, ps: seq<Period>, mail: Key -> bool)
      requires Sound(d) && ValidDate(today) && ValidPeriods(ps)
      modifies this
      ensures Contents() == VisitAll(old(Contents()), d, today, PeriodTasks(g, rt, ps), mail)
    {
      ghost var ts := PeriodTasks(g, rt, ps);
      for i := 0 to |ps|
        invariant Contents() == VisitAll(old(Contents()), d, today, ts[..i], mail)
      {
        assert ts[..i + 1][..i] == ts[..i];
        MaybeDispatch(d, today, Task(g, rt, ps[i]), mail);
      }
      assert ts[..|ps|] == ts;
    }

    method SweepFirm(d: Data, today: Date, mail: Key -> bool)
      requires CanSweep(d, today)
      modifies this
      ensures Contents() == Sweep(old(Contents()), d, today, mail)
    {
      var ps := CandidatePeriods(today);
      TasksValid(d.gids, ps);
      for i := 0 to |d.gids|
        invariant ValidTasks(Tasks(d.gids[..i], ps))
        invariant Contents() == VisitAll(old(Contents()), d, today, Tasks(d.gids[..i], ps), mail)
      {
        var g := d.gids[i];
        assert d.gids[..i + 1][..i] == d.gids[..i];
        TasksValid(d.gids[..i + 1], ps);
        var a, b, c := Tasks(d.gids[..i], ps), PeriodTasks(g, GSTR1, ps), PeriodTasks(g, GSTR3B, ps);
        VisitAllConcat(old(Contents()), d, today, a, b + c, mail);
        VisitAllConcat(VisitAll(old(Contents()), d, today, a, mail), d, today, b, c, mail);
        SweepPeriods(d, today, g, GSTR1, ps, mail);
        SweepPeriods(d, today, g, GSTR3B, ps, mail);
      }
      assert d.gids[..|d.gids|] == d.gids;
    }
  }

  // ----- the dispatch invariant -----

  predicate NoRepeats(ks: seq<Key>) { forall i, j :: 0 <= i < j < |ks| ==> ks[i] != ks[j] }

  /** Every message has its row, and a row is marked sent exactly when its message was; no message was sent twice; an
      admin WhatsApp accompanies every email. */
  ghost predicate Inv(s: State) {
    && NoRepeats(s.emails)
    && (forall i :: 0 <= i < |s.emails| ==> s.emails[i].channel == Email && s.emails[i] in s.log)
    && |s.whatsapps| == |s.emails|
    && (forall i :: 0 <= i < |s.emails| ==> s.whatsapps[i] == WhatsappKey(s.emails[i]))
    && (forall k :: k in s.log && k.channel == Whatsapp ==> k.(channel := Email) in s.log && s.log[k])
    && (forall k :: k in s.log && k.channel == Email ==> (s.log[k] <==> k in s.emails))
  }

  lemma DispatchKeeps(s: State, k: Key, delivered: bool)
    requires Inv(s) && k.channel == Email
    ensures Inv(Dispatch(s, k, delivered))
    ensures k in Dispatch(s, k, delivered).log && s.log.Keys <= Dispatch(s, k, delivered).log.Keys
  {
    var w := WhatsappKey(k);
    assert w.(channel := Email) == k;
    SentFlags(s, k, delivered);
  }

  lemma SentFlags(s: State, k: Key, delivered: bool)
    requires Inv(s) && k.channel == Email
    ensures var t := Dispatch(s, k, delivered);
      forall x :: x in t.log && x.channel == Email ==> (t.log[x] <==> x in t.emails)
  {
    var t := Dispatch(s, k, delivered);
    assert forall x :: x in t.emails <==> x in s.emails || (x == k && k !in s.log && delivered);
  }

  lemma {:induction false} DispatchAllKeeps(s: State, keys: seq<Key>, mail: Key -> bool)
    requires Inv(s) && forall i :: 0 <= i < |keys| ==> keys[i].channel == Email
    ensures Inv(DispatchAll(s, keys, mail)) && s.log.Keys <= DispatchAll(s, keys, mail).log.Keys
  {
    if keys != [] {
      var k := keys[|keys| - 1];
      DispatchAllKeeps(s, keys[..|keys| - 1], mail);
      DispatchKeeps(DispatchAll(s, keys[..|keys| - 1], mail), k, mail(k));
    }
  }

  /** Dispatching plants the recipients' email rows and no others. */
  lemma {:induction false} DispatchAllPlants(s: State, keys: seq<Key>, mail: Key -> bool, k: Key)
    requires k.channel == Email && forall i :: 0 <= i < |keys| ==> keys[i].channel == Email
    ensures k in DispatchAll(s, keys, mail).log <==> k in s.log || k in keys
  {
    if keys != [] {
      var front, last := keys[..|keys| - 1], keys[|keys| - 1];
      DispatchAllPlants(s, front, mail, k);
      assert keys == front + [last];
    }
  }

  lemma DispatchAllHas(s: State, keys: seq<Key>, mail: Key -> bool)
    requires forall i :: 0 <= i < |keys| ==> keys[i].channel == Email
    ensures forall k :: k in keys ==> k in DispatchAll(s, keys, mail).log
  {
    forall k | k in keys
      ensures k in DispatchAll(s, keys, mail).log
    {
      DispatchAllPlants(s, keys, mail, k);
    }
  }

  /** The rows a task's recipients own. */
  function TaskKeys(d: Data, today: Date, t: Task): seq<Key>
    requires Sound(d) && ValidDate(today) && ValidPeriod(t.period)
  {
    match FateOf(d, today, t) case Nudge(out) => Keys(t, out, UsersOf(d, t.gid)) case _ => []
  }

  function AllKeys(d: Data, today: Date, ts: seq<Task>): seq<Key>
    requires Sound(d) && ValidDate(today) && ValidTasks(ts)
  {
    if ts == [] then [] else AllKeys(d, today, ts[..|ts| - 1]) + TaskKeys(d, today, ts[|ts| - 1])
  }

  lemma {:induction false} VisitAllKeeps(s: State, d: Data, today: Date, ts: seq<Task>, mail: Key -> bool)
    requires Inv(s) && Sound(d) && ValidDate(today) && ValidTasks(ts)
    ensures var s' := VisitAll(s, d, today, ts, mail);
      Inv(s') && s.log.Keys <= s'.log.Keys && forall k :: k in AllKeys(d, today, ts) ==> k in s'.log
  {
    if ts != [] {
      var front, t := ts[..|ts| - 1], ts[|ts| - 1];
      var before, keys := VisitAll(s, d, today, front, mail), TaskKeys(d, today, t);
      VisitAllKeeps(s, d, today, front, mail);
      DispatchAllKeeps(before, keys, mail);
      DispatchAllHas(before, keys, mail);
    }
  }

  // ----- runs of sweeps -----

  /** One sweep: the data it reads, its date, and which emails get through. */
  datatype Occasion = Occasion(data: Data, today: Date, mail: Key -> bool)

  ghost predicate Sweepable(os: seq<Occasion>) { forall i :: 0 <= i < |os| ==> CanSweep(os[i].data, os[i].today) }

  ghost function Run(os: seq<Occasion>): State
    requires Sweepable(os)
  {
    if |os| == 0 then State(map[], [], [], 0, Report(0, 0, 0, 0, 0))
    else
      var o := os[|os| - 1];
      Sweep(Run(os[..|os| - 1]), o.data, o.today, o.mail)
  }

  /** At most once: over any sequence of sweeps no (gstin, period, return type, threshold, recipient) is
      ever emailed twice. */
  lemma {:induction false} NeverEmailedTwice(os: seq<Occasion>)
    requires Sweepable(os)
    ensures NoRepeats(Run(os).emails) && Inv(Run(os))
  {
    if |os| != 0 {
      var o := os[|os| - 1];
      NeverEmailedTwice(os[..|os| - 1]);
      VisitAllKeeps(Run(os[..|os| - 1]), o.data, o.today, SweepTasks(o.data, o.today), o.mail);
    }
  }

  /** The comment on the WhatsApp helper promises one message per threshold; the code sends one per emailed
      recipient, because its row is keyed by that recipient. */
  lemma OneWhatsappPerEmail(os: seq<Occasion>, i: nat)
    requires Sweepable(os) && i < |Run(os).emails|
    ensures |Run(os).whatsapps| == |Run(os).emails| && Run(os).whatsapps[i] == WhatsappKey(Run(os).emails[i])
  {
    NeverEmailedTwice(os);
  }

  // ----- how many WhatsApps one threshold gets -----

  /** The recipients' rows that are new and whose email gets through. */
  function Fresh(s: State, keys: seq<Key>, mail: Key -> bool): set<Key> {
    set k | k in keys && k !in s.log && mail(k)
  }

  lemma FreshSnoc(s: State, keys: seq<Key>, k: Key, mail: Key -> bool)
    ensures Fresh(s, keys + [k], mail) == Fresh(s, keys, mail) + if k !in s.log && mail(k) then {k} else {}
  {
    assert forall x :: x in keys + [k] <==> x in keys || x == k;
  }

  lemma FreshSize(s: State, front: seq<Key>, k: Key, mail: Key -> bool)
    ensures |Fresh(s, front + [k], mail)| ==
      |Fresh(s, front, mail)| + if k !in s.log && k !in front && mail(k) then 1 else 0
  {
    FreshSnoc(s, front, k, mail);
    var before := Fresh(s, front, mail);
    assert k in before ==> before + {k} == before;
    assert before + {} == before;
  }

  /** As many WhatsApps as there are new recipients whose email gets through. */
  lemma {:induction false} DispatchAllWhatsapps(s: State, keys: seq<Key>, mail: Key -> bool)
    requires Inv(s) && forall i :: 0 <= i < |keys| ==> keys[i].channel == Email
    ensures |DispatchAll(s, keys, mail).whatsapps| == |s.whatsapps| + |Fresh(s, keys, mail)|
  {
    if keys != [] {
      var front, k := keys[..|keys| - 1], keys[|keys| - 1];
      DispatchAllWhatsapps(s, front, mail);
      DispatchAllKeeps(s, front, mail);
      DispatchAllPlants(s, front, mail, k);
      DispatchWhatsapps(DispatchAll(s, front, mail), k, mail(k));
      FreshSize(s, front, k, mail);
      assert keys == front + [k];
    } else {
      assert Fresh(s, keys, mail) == {};
    }
  }

  lemma DispatchWhatsapps(s: State, k: Key, delivered: bool)
    requires Inv(s) && k.channel == Email
    ensures |Dispatch(s, k, delivered).whatsapps| == |s.whatsapps| + if k !in s.log && delivered then 1 else 0
  {
    assert WhatsappKey(k).(channel := Email) == k;
  }

  /** One threshold of one return sends the admin as many WhatsApps as it has new recipients whose email gets
      through: at most one exactly when there are no two of them. */
  lemma TaskWhatsapps(os: seq<Occasion>, d: Data, today: Date, t: Task, mail: Key -> bool)
    requires Sweepable(os) && Sound(d) && ValidDate(today) && ValidPeriod(t.period)
    ensures var s, due := Run(os), Fresh(Run(os), TaskKeys(d, today, t), mail);
      var sent := |Visit(s, d, today, t, mail).whatsapps| - |s.whatsapps|;
      sent == |due| && (sent <= 1 <==> forall j, k :: j in due && k in due ==> j == k)
  {
    NeverEmailedTwice(os);
    DispatchAllWhatsapps(Run(os), TaskKeys(d, today, t), mail);
    AtMostOne(Fresh(Run(os), TaskKeys(d, today, t), mail));
  }

  lemma AtMostOne(ks: set<Key>)
    ensures |ks| <= 1 <==> forall j, k :: j in ks && k in ks ==> j == k
  {
    if j, k :| j in ks && k in ks && j != k {
      assert {j, k} <= ks;
      assert |ks - {j, k}| == |ks| - 2;
    } else if k :| k in ks {
      assert ks == {k};
    }
  }

  /** A sweep, but for its report, dispatches to the recipients of all its tasks. */
  lemma {:induction false} VisitAllDispatches(s: State, d: Data, today: Date, ts: seq<Task>, mail: Key -> bool)
    requires Sound(d) && ValidDate(today) && ValidTasks(ts)
    ensures var s', t := VisitAll(s, d, today, ts, mail), DispatchAll(s, AllKeys(d, today, ts), mail);
      s'.log == t.log && s'.emails == t.emails && s'.whatsapps == t.whatsapps
  {
    if ts != [] {
      var front, keys := ts[..|ts| - 1], TaskKeys(d, today, ts[|ts| - 1]);
      VisitAllDispatches(s, d, today, front, mail);
      var a, b := VisitAll(s, d, today, front, mail), DispatchAll(s, AllKeys(d, today, front), mail);
      DispatchAllAgree(a, b, keys, mail);
      DispatchAllConcat(s, AllKeys(d, today, front), keys, mail);
    }
  }

  lemma {:induction false} DispatchAllAgree(a: State, b: State, keys: seq<Key>, mail: Key -> bool)
    requires a.log == b.log && a.emails == b.emails && a.whatsapps == b.whatsapps
    ensures var a', b' := DispatchAll(a, keys, mail), DispatchAll(b, keys, mail);
      a'.log == b'.log && a'.emails == b'.emails && a'.whatsapps == b'.whatsapps
  {
    if keys != [] {
      DispatchAllAgree(a, b, keys[..|keys| - 1], mail);
    }
  }

  lemma {:induction false} DispatchAllConcat(s: State, a: seq<Key>, b: seq<Key>, mail: Key -> bool)
    ensures DispatchAll(s, a + b, mail) == DispatchAll(DispatchAll(s, a, mail), b, mail)
  {
    if b == [] {
      assert a + b == a;
    } else {
      DispatchAllConcat(s, a, b[..|b| - 1], mail);
      assert (a + b)[..|a + b| - 1] == a + b[..|b| - 1];
    }
  }

  /** A firm with one GSTIN, whose GSTR-1 of last month falls due today, and two users. */
  function TwoUserFirm(today: Date): Data
    requires ValidDate(today)
  {
    Data([Gid(0, 0, 0)], map[(GSTR1, 0) := today.d], {}, map[0 := [1, 2]])
  }

  lemma TwoUserFates(today: Date, t: Task)
    requires ValidDate(today) && today.y >= 2 && t.gid == Gid(0, 0, 0) && t.period in Candidates(today)
    ensures ValidPeriod(t.period)
    ensures FateOf(TwoUserFirm(today), today, t) ==
      if t.returnType == GSTR3B then NoDueDate
      else if t.period == Candidates(today)[1] then Nudge(0) else NotAtThreshold
  {
    if t.period == Candidates(today)[2] {
      NoDueDateMissed(today, t.period, today.d);
    } else {
      DueNextMonth(today);
    }
  }

  lemma DueNextMonth(today: Date)
    requires ValidDate(today) && today.y >= 2
    ensures DaysOut(DueDate(today.d, Candidates(today)[0]), today) >= 28
    ensures DaysOut(DueDate(today.d, Candidates(today)[1]), today) == 0
  {
    FirstOfNext(Candidates(today)[0]);
    assert DueDate(today.d, Candidates(today)[1]) == today;
  }

  function TwoUserTask(today: Date): Task
    requires ValidDate(today) && today.y >= 2
  {
    Task(Gid(0, 0, 0), GSTR1, Candidates(today)[1])
  }

  lemma TwoUserTasks(today: Date)
    requires ValidDate(today) && today.y >= 2
    ensures var ts := SweepTasks(TwoUserFirm(today), today);
      |ts| == 6 && ts[1] == TwoUserTask(today) &&
      (forall i :: 0 <= i < 6 ==> ts[i].gid == Gid(0, 0, 0) && ts[i].period in Candidates(today)) &&
      (forall i :: 0 <= i < 6 && i != 1 ==> ts[i].returnType == GSTR3B || ts[i].period != Candidates(today)[1])
  {
    var g, ps := Gid(0, 0, 0), Candidates(today);
    CandidatesDistinct(today);
    assert [g][..0] == [] && Tasks([], ps) == [];
    assert Tasks([g], ps) == GidTasks(g, ps);
  }

  lemma TwoUserKeys(today: Date)
    requires ValidDate(today) && today.y >= 2
    ensures var t := TwoUserTask(today);
      AllKeys(TwoUserFirm(today), today, SweepTasks(TwoUserFirm(today), today)) == [KeyFor(t, 0, 1), KeyFor(t, 0, 2)]
  {
    var d, ts := TwoUserFirm(today), SweepTasks(TwoUserFirm(today), today);
    var t := TwoUserTask(today);
    TwoUserTasks(today);
    forall i | 0 <= i < 6
      ensures TaskKeys(d, today, ts[i]) == if i == 1 then [KeyFor(t, 0, 1), KeyFor(t, 0, 2)] else []
    {
      TwoUserFates(today, ts[i]);
    }
    OnlyTaskSpeaks(d, today, ts, 1, 6);
    assert ts[..6] == ts;
  }

  /** Swept on any date, that firm's one threshold sends two WhatsApps. */
  lemma TwoRecipientsTwoWhatsapps(today: Date)
    requires ValidDate(today) && today.y >= 2
    ensures var d, t := TwoUserFirm(today), TwoUserTask(today);
      CanSweep(d, today) &&
      Sweep(Run([]), d, today, k => true).whatsapps == [WhatsappKey(KeyFor(t, 0, 1)), WhatsappKey(KeyFor(t, 0, 2))]
  {
    var d := TwoUserFirm(today);
    TwoUserKeys(today);
    VisitAllDispatches(Run([]), d, today, SweepTasks(d, today), k => true);
    TwoDispatched(TwoUserTask(today), k => true);
  }

  lemma {:induction false} OnlyTaskSpeaks(d: Data, today: Date, ts: seq<Task>, i: nat, n: nat)
    requires Sound(d) && ValidDate(today) && ValidTasks(ts) && i < |ts| && n <= |ts|
    requires forall j :: 0 <= j < |ts| && j != i ==> TaskKeys(d, today, ts[j]) == []
    ensures AllKeys(d, today, ts[..n]) == if n > i then TaskKeys(d, today, ts[i]) else []
  {
    if n > 0 {
      OnlyTaskSpeaks(d, today, ts, i, n - 1);
      AllKeysUpTo(d, today, ts, n - 1);
    }
  }

  lemma AllKeysUpTo(d: Data, today: Date, ts: seq<Task>, n: nat)
    requires Sound(d) && ValidDate(today) && ValidTasks(ts) && n < |ts|
    ensures AllKeys(d, today, ts[..n + 1]) == AllKeys(d, today, ts[..n]) + TaskKeys(d, today, ts[n])
  {
    assert ts[..n + 1][..n] == ts[..n];
  }

  lemma TwoDispatched(t: Task, mail: Key -> bool)
    requires forall k :: mail(k)
    ensures DispatchAll(Run([]), [KeyFor(t, 0, 1), KeyFor(t, 0, 2)], mail).whatsapps
      == [WhatsappKey(KeyFor(t, 0, 1)), WhatsappKey(KeyFor(t, 0, 2))]
  {
    var keys := [KeyFor(t, 0, 1), KeyFor(t, 0, 2)];
    assert keys[..1][..0] == [] && keys[..1] == [keys[0]];
    assert DispatchAll(Run([]), keys[..1], mail) == Dispatch(DispatchAll(Run([]), keys[..1][..0], mail), keys[0], true);
  }

  // ----- repeating a sweep -----

  /** When every row already exists, dispatching only counts duplicates. */
  lemma {:induction false} DispatchAllIdle(s: State, keys: seq<Key>, mail: Key -> bool)
    requires forall i :: 0 <= i < |keys| ==> keys[i] in s.log
    ensures DispatchAll(s, keys, mail) == s.(report := s.report.(duplicate := s.report.duplicate + |keys|))
  {
    if keys != [] {
      DispatchAllIdle(s, keys[..|keys| - 1], mail);
    }
  }

  ghost predicate OnlyCounted(s: State, s': State, duplicates: nat) {
    s'.log == s.log && s'.emails == s.emails && s'.whatsapps == s.whatsapps && s'.failures == s.failures &&
    s'.report.dispatched == s.report.dispatched && s'.report.duplicate == s.report.duplicate + duplicates
  }

  lemma {:induction false} VisitAllIdle(s: State, d: Data, today: Date, ts: seq<Task>, mail: Key -> bool)
    requires Sound(d) && ValidDate(today) && ValidTasks(ts)
    requires forall k :: k in AllKeys(d, today, ts) ==> k in s.log
    ensures OnlyCounted(s, VisitAll(s, d, today, ts, mail), |AllKeys(d, today, ts)|)
  {
    if ts != [] {
      var front, t := ts[..|ts| - 1], ts[|ts| - 1];
      VisitAllIdle(s, d, today, front, mail);
      var keys := TaskKeys(d, today, t);
      assert forall i :: 0 <= i < |keys| ==> keys[i] in AllKeys(d, today, ts);
      DispatchAllIdle(VisitAll(s, d, today, front, mail), keys, mail);
    }
  }

  /** A second sweep of unchanged data sends nothing, whatever the mail server does, and counts exactly the
      recipients the data yields as duplicates. */
  lemma RepeatedSweepIsIdle(os: seq<Occasion>, d: Data, today: Date, mail: Key -> bool, again: Key -> bool)
    requires Sweepable(os) && CanSweep(d, today)
    ensures var first := Sweep(Run(os), d, today, mail);
      OnlyCounted(first, Sweep(first, d, today, again), |AllKeys(d, today, SweepTasks(d, today))|)
  {
    NeverEmailedTwice(os);
    var ts := SweepTasks(d, today);
    VisitAllKeeps(Run(os), d, today, ts, mail);
    VisitAllIdle(Sweep(Run(os), d, today, mail), d, today, ts, again);
  }

  // ----- the counters -----

  function Skipped(r: Report): nat { r.noDueDate + r.notAtThreshold + r.filed }

  function Handled(s: State): nat { s.report.dispatched + s.report.duplicate + s.failures }

  lemma {:induction false} DispatchAllCounts(s: State, keys: seq<Key>, mail: Key -> bool)
    ensures var s' := DispatchAll(s, keys, mail);
      Handled(s') == Handled(s) + |keys| && Skipped(s'.report) == Skipped(s.report) &&
      s'.report.dispatched - s.report.dispatched == |s'.emails| - |s.emails|
  {
    if keys != [] {
      DispatchAllCounts(s, keys[..|keys| - 1], mail);
    }
  }

  function Reached(d: Data, today: Date, ts: seq<Task>): nat
    requires Sound(d) && ValidDate(today) && ValidTasks(ts)
  {
    if ts == [] then 0
    else Reached(d, today, ts[..|ts| - 1]) + if FateOf(d, today, ts[|ts| - 1]).Nudge? then 1 else 0
  }

  lemma {:induction false} VisitAllCounts(s: State, d: Data, today: Date, ts: seq<Task>, mail: Key -> bool)
    requires Sound(d) && ValidDate(today) && ValidTasks(ts)
    ensures var s' := VisitAll(s, d, today, ts, mail);
      Handled(s') == Handled(s) + |AllKeys(d, today, ts)| &&
      Skipped(s'.report) + Reached(d, today, ts) == Skipped(s.report) + |ts| &&
      s'.report.dispatched - s.report.dispatched == |s'.emails| - |s.emails|
  {
    if ts != [] {
      var front, t := ts[..|ts| - 1], ts[|ts| - 1];
      VisitAllCounts(s, d, today, front, mail);
      DispatchAllCounts(VisitAll(s, d, today, front, mail), TaskKeys(d, today, t), mail);
    }
  }

  /** The report adds up: the three skip counters plus the tasks that reached recipients are all
      gstins x 2 x 3 tasks; dispatches, duplicates and failed sends are all recipients reached; and
      `dispatched` counts the emails sent. */
  lemma SweepAddsUp(s: State, d: Data, today: Date, mail: Key -> bool)
    requires CanSweep(d, today)
    ensures var s', ts := Sweep(s, d, today, mail), SweepTasks(d, today);
      Skipped(s'.report) + Reached(d, today, ts) == Skipped(s.report) + |d.gids| * 2 * 3 &&
      Handled(s') == Handled(s) + |AllKeys(d, today, ts)| &&
      s'.report.dispatched - s.report.dispatched == |s'.emails| - |s.emails|
  {
    VisitAllCounts(s, d, today, SweepTasks(d, today), mail);
  }

  // ----- no due date is missed by the sweep -----

  lemma {:induction false} TaskListed(gids: seq<Gid>, ps: seq<Period>, i: nat, rt: ReturnType, p: Period)
    requires i < |gids| && p in ps
    ensures Task(gids[i], rt, p) in Tasks(gids, ps)
  {
    var last := |gids| - 1;
    if i < last {
      TaskListed(gids[..last], ps, i, rt, p);
    } else {
      var k :| 0 <= k < |ps| && ps[k] == p;
      assert PeriodTasks(gids[i], rt, ps)[k] == Task(gids[i], rt, p);
    }
  }

  /** In the data's own terms: the return of a GSTIN has a configured day and falls due in `out` days, which is a
      threshold; it is not filed; and the user is a recipient of the GSTIN's client. */
  predicate Nudgeable(d: Data, today: Date, g: Gid, rt: ReturnType, p: Period, out: int, user: nat)
    requires Sound(d) && ValidDate(today) && ValidPeriod(p)
  {
    && (rt, g.scheme) in d.dueDays && DaysOut(DueDate(d.dueDays[(rt, g.scheme)], p), today) == out
    && (out == 7 || out == 3 || out == 1 || out == 0)
    && (g.id, p, rt) !in d.filed
    && g.client in d.recipients && user in d.recipients[g.client]
  }

  /** What becomes of a task, in the same terms. */
  lemma FateExactly(d: Data, today: Date, t: Task)
    requires Sound(d) && ValidDate(today) && ValidPeriod(t.period)
    ensures FateOf(d, today, t).NoDueDate? <==> (t.returnType, t.gid.scheme) !in d.dueDays
    ensures FateOf(d, today, t).NotAtThreshold? <==> OffThreshold(d, today, t)
    ensures FateOf(d, today, t).AlreadyFiled? <==> FiledAtThreshold(d, today, t)
    ensures forall user, out :: KeyFor(t, out, user) in TaskKeys(d, today, t) <==>
      Nudgeable(d, today, t.gid, t.returnType, t.period, out, user)
  {
    forall user, out
      ensures KeyFor(t, out, user) in TaskKeys(d, today, t) <==>
        Nudgeable(d, today, t.gid, t.returnType, t.period, out, user)
    {
      if Nudgeable(d, today, t.gid, t.returnType, t.period, out, user) {
        var k :| 0 <= k < |UsersOf(d, t.gid)| && UsersOf(d, t.gid)[k] == user;
        assert TaskKeys(d, today, t)[k] == KeyFor(t, out, user);
      }
    }
  }

  /** A day is configured, but the due date is not 7, 3, 1 or 0 days away. */
  predicate OffThreshold(d: Data, today: Date, t: Task)
    requires Sound(d) && ValidDate(today) && ValidPeriod(t.period)
  {
    (t.returnType, t.gid.scheme) in d.dueDays &&
    var out := DaysOut(DueDate(d.dueDays[(t.returnType, t.gid.scheme)], t.period), today);
    out != 7 && out != 3 && out != 1 && out != 0
  }

  /** It is, but that return of that period is filed. */
  predicate FiledAtThreshold(d: Data, today: Date, t: Task)
    requires Sound(d) && ValidDate(today) && ValidPeriod(t.period)
  {
    (t.returnType, t.gid.scheme) in d.dueDays && !OffThreshold(d, today, t) &&
    (t.gid.id, t.period, t.returnType) in d.filed
  }

  /** How many tasks each skip counter counts. */
  function Tally(d: Data, today: Date, ts: seq<Task>): (r: (nat, nat, nat))
    requires Sound(d) && ValidDate(today) && ValidTasks(ts)
  {
    if ts == [] then (0, 0, 0)
    else
      var (noDay, off, filed) := Tally(d, today, ts[..|ts| - 1]);
      var t := ts[|ts| - 1];
      (noDay + (if (t.returnType, t.gid.scheme) !in d.dueDays then 1 else 0),
       off + (if OffThreshold(d, today, t) then 1 else 0),
       filed + (if FiledAtThreshold(d, today, t) then 1 else 0))
  }

  lemma {:induction false} VisitAllTallies(s: State, d: Data, today: Date, ts: seq<Task>, mail: Key -> bool)
    requires Sound(d) && ValidDate(today) && ValidTasks(ts)
    ensures var (r, tally) := (VisitAll(s, d, today, ts, mail).report, Tally(d, today, ts));
      r.noDueDate == s.report.noDueDate + tally.0 && r.notAtThreshold == s.report.notAtThreshold + tally.1 &&
      r.filed == s.report.filed + tally.2
  {
    if ts != [] {
      var front, t := ts[..|ts| - 1], ts[|ts| - 1];
      VisitAllTallies(s, d, today, front, mail);
      FateExactly(d, today, t);
      DispatchAllSkipsNone(VisitAll(s, d, today, front, mail), TaskKeys(d, today, t), mail);
    }
  }

  lemma {:induction false} DispatchAllSkipsNone(s: State, keys: seq<Key>, mail: Key -> bool)
    ensures var r := DispatchAll(s, keys, mail).report;
      r.noDueDate == s.report.noDueDate && r.notAtThreshold == s.report.notAtThreshold && r.filed == s.report.filed
  {
    if keys != [] {
      DispatchAllSkipsNone(s, keys[..|keys| - 1], mail);
    }
  }

  /** Each skip counter of a sweep counts the tasks of its own kind. */
  lemma SkipCounters(s: State, d: Data, today: Date, mail: Key -> bool)
    requires CanSweep(d, today)
    ensures var (r, tally) := (Sweep(s, d, today, mail).report, Tally(d, today, SweepTasks(d, today)));
      r.noDueDate == s.report.noDueDate + tally.0 && r.notAtThreshold == s.report.notAtThreshold + tally.1 &&
      r.filed == s.report.filed + tally.2
  {
    VisitAllTallies(s, d, today, SweepTasks(d, today), mail);
  }

  /** After a sweep every recipient of every unfiled return that is due at a threshold has a row, whatever ran
      before. */
  lemma EveryDueReturnIsNudged(os: seq<Occasion>, d: Data, today: Date, mail: Key -> bool,
                               i: nat, rt: ReturnType, p: Period, out: int, user: nat)
    requires Sweepable(os) && CanSweep(d, today) && i < |d.gids| && ValidPeriod(p)
    requires Nudgeable(d, today, d.gids[i], rt, p, out, user)
    ensures Key(d.gids[i].id, p, rt, out, Email, user) in Sweep(Run(os), d, today, mail).log
  {
    var t := Task(d.gids[i], rt, p);
    var ts := SweepTasks(d, today);
    NoDueDateMissed(today, p, d.dueDays[(rt, d.gids[i].scheme)]);
    TaskListed(d.gids, Candidates(today), i, rt, p);
    KeyListed(d, today, ts, t, user);
    NeverEmailedTwice(os);
    VisitAllKeeps(Run(os), d, today, ts, mail);
  }

  lemma {:induction false} TaskFrom(gids: seq<Gid>, ps: seq<Period>, t: Task) returns (i: nat)
    requires t in Tasks(gids, ps)
    ensures i < |gids| && t.gid == gids[i]
  {
    var last := |gids| - 1;
    if t in GidTasks(gids[last], ps) {
      i := last;
    } else {
      i := TaskFrom(gids[..last], ps, t);
    }
  }

  lemma {:induction false} KeyFrom(d: Data, today: Date, ts: seq<Task>, k: Key) returns (t: Task)
    requires Sound(d) && ValidDate(today) && ValidTasks(ts) && k in AllKeys(d, today, ts)
    ensures t in ts && ValidPeriod(t.period) && k in TaskKeys(d, today, t)
  {
    var front, last := ts[..|ts| - 1], ts[|ts| - 1];
    if k in TaskKeys(d, today, last) {
      t := last;
    } else {
      t := KeyFrom(d, today, front, k);
    }
  }

  /** A sweep adds an email row only for a listed GSTIN whose return is due in exactly the row's number of days, is
      not filed, and whose client lists the recipient. */
  lemma OnlyDueReturnsAreNudged(s: State, d: Data, today: Date, mail: Key -> bool, k: Key) returns (i: nat)
    requires CanSweep(d, today) && k.channel == Email
    requires k in Sweep(s, d, today, mail).log && k !in s.log
    ensures i < |d.gids| && d.gids[i].id == k.gid && ValidPeriod(k.period)
    ensures Nudgeable(d, today, d.gids[i], k.returnType, k.period, k.daysBefore, k.user)
  {
    var ts := SweepTasks(d, today);
    VisitAllDispatches(s, d, today, ts, mail);
    AllKeysAreEmail(d, today, ts);
    DispatchAllPlants(s, AllKeys(d, today, ts), mail, k);
    var t := KeyFrom(d, today, ts, k);
    i := TaskFrom(d.gids, Candidates(today), t);
    FateExactly(d, today, t);
    assert k == KeyFor(t, k.daysBefore, k.user);
  }

  lemma {:induction false} AllKeysAreEmail(d: Data, today: Date, ts: seq<Task>)
    requires Sound(d) && ValidDate(today) && ValidTasks(ts)
    ensures forall i :: 0 <= i < |AllKeys(d, today, ts)| ==> AllKeys(d, today, ts)[i].channel == Email
  {
    if ts != [] {
      AllKeysAreEmail(d, today, ts[..|ts| - 1]);
    }
  }

  /** In every run each email was due to be sent by one of its sweeps. */
  lemma {:induction false} EveryEmailWasDue(os: seq<Occasion>, k: Key) returns (j: nat, i: nat)
    requires Sweepable(os) && k.channel == Email && k in Run(os).log
    ensures j < |os| && i < |os[j].data.gids| && os[j].data.gids[i].id == k.gid && ValidPeriod(k.period)
    ensures Nudgeable(os[j].data, os[j].today, os[j].data.gids[i], k.returnType, k.period, k.daysBefore, k.user)
  {
    var o := os[|os| - 1];
    if k in Run(os[..|os| - 1]).log {
      j, i := EveryEmailWasDue(os[..|os| - 1], k);
    } else {
      i := OnlyDueReturnsAreNudged(Run(os[..|os| - 1]), o.data, o.today, o.mail, k);
      j := |os| - 1;
    }
  }

  lemma {:induction false} KeyListed(d: Data, today: Date, ts: seq<Task>, t: Task, user: nat)
    requires Sound(d) && ValidDate(today) && ValidTasks(ts) && t in ts && ValidPeriod(t.period)
    requires FateOf(d, today, t).Nudge? && user in UsersOf(d, t.gid)
    ensures KeyFor(t, FateOf(d, today, t).daysOut, user) in AllKeys(d, today, ts)
  {
    var front := ts[..|ts| - 1];
    if ts[|ts| - 1] == t {
      var users := UsersOf(d, t.gid);
      var k :| 0 <= k < |users| && users[k] == user;
      assert TaskKeys(d, today, t)[k] == KeyFor(t, FateOf(d, today, t).daysOut, user);
    } else {
      assert ts == front + [ts[|ts| - 1]];
      KeyListed(d, today, front, t, user);
    }
  }
}

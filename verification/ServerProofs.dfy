/** What the server keeps over every trace of its inputs, stray messages included. */
module ServerProofs {
  import opened Prelude
  import opened Wire
  import opened Server

  predicate OnePidEach(s: seq<RunSlot>) {
    forall i, j :: 0 <= i < j < |s| ==> s[i].pid != s[j].pid
  }

  predicate OneSessionEach(s: seq<TesterSlot>) {
    forall i, j :: 0 <= i < j < |s| ==> s[i].pid != s[j].pid
  }

  predicate HasSession(s: seq<TesterSlot>, pid: int) {
    TesterIndex(s, pid) < |s|
  }

  function SumRcd(s: seq<TesterSlot>): nat {
    if s == [] then 0 else SumRcd(s[..|s| - 1]) + s[|s| - 1].rcd
  }

  function SumAcc(s: seq<TesterSlot>): nat {
    if s == [] then 0 else SumAcc(s[..|s| - 1]) + s[|s| - 1].acc
  }

  /** Requests counted so far: answered, open, or given up because no worker started. */
  ghost predicate Kept(s: State, failures: nat) {
    && OnePidEach(s.runSlots) && OneSessionEach(s.testerSlots)
    && (forall i :: 0 <= i < |s.runSlots| ==> HasSession(s.testerSlots, s.runSlots[i].tester))
    && s.rcd == s.snt + |s.runSlots| + failures
    && s.acc <= s.snt
    && SumRcd(s.testerSlots) <= s.rcd && SumAcc(s.testerSlots) <= s.acc
    && Mirrors(s)
  }

  // ----- sessions

  lemma {:induction false} SumsSplit(a: seq<TesterSlot>, b: seq<TesterSlot>)
    ensures SumRcd(a + b) == SumRcd(a) + SumRcd(b) && SumAcc(a + b) == SumAcc(a) + SumAcc(b)
  {
    if b == [] {
      assert a + b == a;
    } else {
      assert (a + b)[..|a + b| - 1] == a + b[..|b| - 1];
      SumsSplit(a, b[..|b| - 1]);
    }
  }

  lemma SumsOne(x: TesterSlot)
    ensures SumRcd([x]) == x.rcd && SumAcc([x]) == x.acc
  {
    assert [x][..0] == [];
  }

  lemma SumsUpdate(s: seq<TesterSlot>, i: nat, x: TesterSlot)
    requires i < |s|
    ensures SumRcd(s[i := x]) == SumRcd(s) - s[i].rcd + x.rcd
    ensures SumAcc(s[i := x]) == SumAcc(s) - s[i].acc + x.acc
  {
    assert s == s[..i] + ([s[i]] + s[i + 1..]);
    assert s[i := x] == s[..i] + ([x] + s[i + 1..]);
    SumsSplit(s[..i], [s[i]] + s[i + 1..]);
    SumsSplit([s[i]], s[i + 1..]);
    SumsSplit(s[..i], [x] + s[i + 1..]);
    SumsSplit([x], s[i + 1..]);
    SumsOne(x);
    SumsOne(s[i]);
  }

  lemma HasSessionIff(s: seq<TesterSlot>, pid: int)
    ensures HasSession(s, pid) <==> exists i :: 0 <= i < |s| && s[i].pid == pid
  {
  }

  /** Storing a session keeps one per tester, and loses none. */
  lemma PutTesterSessions(s: seq<TesterSlot>, slot: TesterSlot)
    requires OneSessionEach(s)
    ensures
      var r := PutTester(s, slot);
      && OneSessionEach(r) && HasSession(r, slot.pid) && r[TesterIndex(r, slot.pid)] == slot
      && forall pid :: HasSession(s, pid) ==> HasSession(r, pid)
  {
    var i, r := TesterIndex(s, slot.pid), PutTester(s, slot);
    var w := Without(s, i);
    assert forall j :: 0 <= j < |w| ==> w[j] == s[if j < i then j else j + 1];
    assert forall j :: 0 <= j < |w| ==> w[j].pid != slot.pid;
    assert r[|w|] == slot;
    forall pid | HasSession(s, pid)
      ensures HasSession(r, pid)
    {
      var j := TesterIndex(s, pid);
      assert r[if j < i then j else if j > i then j - 1 else |w|].pid == pid;
    }
  }

  /** It adds at most its own counts. */
  lemma PutTesterSums(s: seq<TesterSlot>, slot: TesterSlot)
    ensures
      var r := PutTester(s, slot);
      SumRcd(r) <= SumRcd(s) + slot.rcd && SumAcc(r) <= SumAcc(s) + slot.acc
  {
    hide SumRcd, SumAcc;
    var i := TesterIndex(s, slot.pid);
    SumsSplit(Without(s, i), [slot]);
    SumsOne(slot);
    if i < |s| {
      assert s == s[..i] + ([s[i]] + s[i + 1..]);
      SumsSplit(s[..i], [s[i]] + s[i + 1..]);
      SumsSplit([s[i]], s[i + 1..]);
      SumsSplit(s[..i], s[i + 1..]);
    }
  }

  /** Updating the counts of a session changes nothing else. */
  lemma UpdateKeeps(s: seq<TesterSlot>, i: nat, x: TesterSlot)
    requires OneSessionEach(s) && i < |s| && x.pid == s[i].pid
    ensures OneSessionEach(s[i := x])
    ensures forall pid :: HasSession(s, pid) ==> HasSession(s[i := x], pid)
  {
    forall pid | HasSession(s, pid)
      ensures HasSession(s[i := x], pid)
    {
      assert s[i := x][TesterIndex(s, pid)].pid == pid;
      HasSessionIff(s[i := x], pid);
    }
  }

  /** The scan finds the session of the tester whenever there is one. */
  lemma ScanFinds(s: seq<TesterSlot>, pid: int)
    requires HasSession(s, pid)
    ensures
      var i := ScanSessions(s, pid);
      i.Some? && i.value < |s| && s[i.value].pid == pid
  {
  }

  // ----- the phases

  lemma {:induction false} RegisterKeeps(s: State, failures: nat, ms: seq<RegisterMsg>)
    requires Kept(s, failures)
    ensures Kept(RegisterAll(s, ms), failures)
    ensures
      var r := RegisterAll(s, ms);
      && r == s.(testerSlots := r.testerSlots)
      && forall pid :: HasSession(s.testerSlots, pid) ==> HasSession(r.testerSlots, pid)
  {
    if ms != [] {
      var m := ms[|ms| - 1];
      RegisterKeeps(s, failures, ms[..|ms| - 1]);
      var r := RegisterAll(s, ms[..|ms| - 1]);
      if m.Register? {
        PutTesterSessions(r.testerSlots, TesterSlot(m.pid, m.queue, 0, 0));
        PutTesterSums(r.testerSlots, TesterSlot(m.pid, m.queue, 0, 0));
      }
    }
  }

  lemma WithoutRun(s: seq<RunSlot>, i: nat)
    requires OnePidEach(s) && i < |s|
    ensures OnePidEach(Without(s, i)) && |Without(s, i)| == |s| - 1
    ensures forall j :: 0 <= j < |s| - 1 ==> Without(s, i)[j] == s[if j < i then j else j + 1]
    ensures RunIndex(Without(s, i), s[i].pid) == |s| - 1
  {
  }

  lemma RunKeeps(s: State, limit: int, failures: nat, msg: Option<RunMsg>)
    requires Kept(s, failures)
    ensures Kept(HandleRun(s, limit, msg).0, failures)
  {
    hide SumRcd, SumAcc, Forward, RunIndex, TesterIndex;
    if msg.Some? && msg.value.Terminate? {
      var t := Unthrottle(s.(active := s.active - 1), limit);
      var r := RunIndex(t.runSlots, msg.value.pid);
      if r < |t.runSlots| {
        ForwardKeeps(t, failures, r, msg.value.result);
      }
    }
  }

  lemma ForwardKeeps(s: State, failures: nat, r: nat, result: int)
    requires Kept(s, failures) && r < |s.runSlots|
    ensures Kept(Forward(s, r, result).0, failures)
    ensures
      var rs, ts := s.runSlots[r], s.testerSlots[TesterIndex(s.testerSlots, s.runSlots[r].tester)];
      ts.pid == rs.tester && Forward(s, r, result).1 == [Mail(ts.queue, Answer(rs.loc, result))]
  {
    hide SumRcd, SumAcc;
    var rs, t := s.runSlots[r], Forward(s, r, result).0;
    ScanFinds(s.testerSlots, rs.tester);
    var i := TesterIndex(s.testerSlots, rs.tester);
    var x := t.testerSlots[i];
    assert t.testerSlots == s.testerSlots[i := x];
    UpdateKeeps(s.testerSlots, i, x);
    SumsUpdate(s.testerSlots, i, x);
    WithoutRun(s.runSlots, r);
  }

  lemma ReportKeeps(s: State, failures: nat, msg: Option<ReportMsg>, spawned: Option<int>)
    requires Kept(s, failures)
    requires spawned.Some? && Accepted(s, msg) ==> RunIndex(s.runSlots, spawned.value) == |s.runSlots|
    ensures Kept(HandleReport(s, msg, spawned), failures + if Accepted(s, msg) && spawned == None then 1 else 0)
  {
    hide SumRcd, SumAcc;
    if Accepted(s, msg) {
      ChargeKeeps(s, msg.value.pid, msg.value.queue);
    }
  }

  /** The message is a parse request and the server still takes them. */
  predicate Accepted(s: State, msg: Option<ReportMsg>) {
    !s.shouldTerminate && msg.Some? && msg.value.Parse?
  }

  lemma ChargeKeeps(s: State, pid: int, queue: string)
    requires OneSessionEach(s.testerSlots)
    ensures
      var t := Charge(s, pid, queue);
      && t == s.(rcd := s.rcd + 1, testerSlots := t.testerSlots)
      && OneSessionEach(t.testerSlots) && HasSession(t.testerSlots, pid)
      && (forall p :: HasSession(s.testerSlots, p) ==> HasSession(t.testerSlots, p))
      && SumRcd(t.testerSlots) <= SumRcd(s.testerSlots) + 1 && SumAcc(t.testerSlots) <= SumAcc(s.testerSlots)
  {
    hide SumRcd, SumAcc, PutTester, HasSession, OneSessionEach, TesterIndex;
    var slot := TesterSlot(pid, queue, 0, 0);
    var slots := if TesterIndex(s.testerSlots, pid) < |s.testerSlots| then s.testerSlots
                 else PutTester(s.testerSlots, slot);
    Opened(s.testerSlots, slot);
    var i := TesterIndex(slots, pid);
    var x := slots[i].(rcd := slots[i].rcd + 1);
    UpdateKeeps(slots, i, x);
    SumsUpdate(slots, i, x);
  }

  /** Opening a session where there is none. */
  lemma Opened(s: seq<TesterSlot>, slot: TesterSlot)
    requires OneSessionEach(s) && slot.rcd == 0 && slot.acc == 0
    ensures
      var r := if TesterIndex(s, slot.pid) < |s| then s else PutTester(s, slot);
      && OneSessionEach(r) && HasSession(r, slot.pid) && TesterIndex(r, slot.pid) < |r|
      && (forall p :: HasSession(s, p) ==> HasSession(r, p))
      && SumRcd(r) <= SumRcd(s) && SumAcc(r) <= SumAcc(s)
  {
    hide SumRcd, SumAcc, PutTester;
    PutTesterSessions(s, slot);
    PutTesterSums(s, slot);
  }

  // ----- what the phases do, for the tester, the worker and the queues

  /** The queue modes mirror the throttle. */
  predicate Mirrors(s: State) {
    s.runBlocking == s.throttled && s.reportBlocking == !s.throttled
  }

  /** Throttling starts exactly above the limit and ends exactly below it, and the two queues swap
      their modes with it. */
  lemma ThrottleEffects(s: State, limit: int)
    ensures Throttle(s, limit).throttled <==> s.throttled || s.active > limit
    ensures Unthrottle(s, limit).throttled <==> s.throttled && s.active >= limit
    ensures Mirrors(s) ==> Mirrors(Throttle(s, limit)) && Mirrors(Unthrottle(s, limit))
  {
  }

  /** An answer counts once, for the server and for the tester of the slot, and for nobody else. */
  lemma ForwardEffects(s: State, failures: nat, r: nat, result: int)
    requires Kept(s, failures) && r < |s.runSlots|
    ensures
      var t, i := Forward(s, r, result).0, TesterIndex(s.testerSlots, s.runSlots[r].tester);
      var won := if result == 1 then 1 else 0;
      && t.snt == s.snt + 1 && t.acc == s.acc + won && |t.testerSlots| == |s.testerSlots|
      && (forall j :: 0 <= j < |s.testerSlots| ==>
            t.testerSlots[j] == s.testerSlots[j].(acc := s.testerSlots[j].acc + if j == i then won else 0))
      && SumAcc(t.testerSlots) == SumAcc(s.testerSlots) + won
  {
    hide SumRcd, SumAcc;
    var i := TesterIndex(s.testerSlots, s.runSlots[r].tester);
    ScanFinds(s.testerSlots, s.runSlots[r].tester);
    SumsUpdate(s.testerSlots, i, Forward(s, r, result).0.testerSlots[i]);
  }

  lemma OthersRemain(s: seq<RunSlot>, pid: int)
    requires OnePidEach(s)
    ensures forall x :: x in Without(s, RunIndex(s, pid)) <==> x in s && x.pid != pid
  {
    var i := RunIndex(s, pid);
    hide RunIndex;
    if i < |s| {
      assert s == s[..i] + [s[i]] + s[i + 1..];
    }
  }

  /** A report ends the open slot of its worker and no other, and sends one answer, to the queue
      of the slot's tester and under its local id; a stray report sends nothing. */
  lemma RunAnswers(s: State, limit: int, failures: nat, pid: int, result: int)
    requires Kept(s, failures)
    ensures
      var (t, mail) := HandleRun(s, limit, Some(Terminate(pid, result)));
      && (forall x :: x in t.runSlots <==> x in s.runSlots && x.pid != pid)
      && (if forall x :: x in s.runSlots ==> x.pid != pid then mail == []
          else exists x, ts :: x in s.runSlots && x.pid == pid && ts in s.testerSlots && ts.pid == x.tester
                               && mail == [Mail(ts.queue, Answer(x.loc, result))])
  {
    hide SumRcd, SumAcc, RunIndex, TesterIndex, Without, Forward;
    var t := Unthrottle(s.(active := s.active - 1), limit);
    var r := RunIndex(s.runSlots, pid);
    OthersRemain(s.runSlots, pid);
    RunEffects(s, limit, Some(Terminate(pid, result)));
    if r < |s.runSlots| {
      var x := s.runSlots[r];
      ForwardKeeps(t, failures, r, result);
      var ts := s.testerSlots[TesterIndex(s.testerSlots, x.tester)];
      assert x in s.runSlots && ts in s.testerSlots;
    }
  }

  // ----- any trace

  /** Workers are started under pids that no open slot has. */
  ghost predicate FreshPids(limit: int, trace: seq<Turn>) {
    trace == [] ||
    var s, t := RunServer(limit, trace[..|trace| - 1]).0, trace[|trace| - 1];
    && FreshPids(limit, trace[..|trace| - 1])
    && (!s.forceTermination ==>
          var u, pid := BeforeReport(s, limit, t).0, Spawned(t.attempts, RETRIES);
          pid.Some? && Accepted(u, t.report) ==> RunIndex(u.runSlots, pid.value) == |u.runSlots|)
  }

  /** Requests taken for which no attempt to start a worker succeeded. */
  ghost function Failures(limit: int, trace: seq<Turn>): nat {
    if trace == [] then 0
    else
      var s, t := RunServer(limit, trace[..|trace| - 1]).0, trace[|trace| - 1];
      Failures(limit, trace[..|trace| - 1]) +
      if !s.forceTermination && Accepted(BeforeReport(s, limit, t).0, t.report) && Spawned(t.attempts, RETRIES) == None
      then 1 else 0
  }

  lemma BeforeKeeps(s: State, limit: int, failures: nat, t: Turn)
    requires Kept(s, failures)
    ensures Kept(BeforeReport(s, limit, t).0, failures)
  {
    hide SumRcd, SumAcc, HandleRun, RegisterAll;
    RegisterKeeps(s, failures, t.registers);
    RunKeeps(Throttle(RegisterAll(s, t.registers), limit), limit, failures, t.run);
  }

  /** Conservation over every trace, with stray run messages and repeated registrations: words
      received are answered, open, or failed to start; accepted are at most sent, sent at most
      received; every open slot's tester has a session; sessions count no more than the
      totals; and the queue modes mirror the throttle. */
  lemma {:induction false} Conservation(limit: int, trace: seq<Turn>)
    requires FreshPids(limit, trace)
    ensures Kept(RunServer(limit, trace).0, Failures(limit, trace))
  {
    hide SumRcd, SumAcc, BeforeReport, HandleReport, Spawned, Broadcast;
    if trace == [] {
      SumsEmpty();
    } else {
      var s, t := RunServer(limit, trace[..|trace| - 1]).0, trace[|trace| - 1];
      Conservation(limit, trace[..|trace| - 1]);
      if !s.forceTermination {
        var failures := Failures(limit, trace[..|trace| - 1]);
        BeforeKeeps(s, limit, failures, t);
        ReportKeeps(BeforeReport(s, limit, t).0, failures, t.report, Spawned(t.attempts, RETRIES));
      }
    }
  }

  lemma SumsEmpty()
    ensures SumRcd([]) == 0 && SumAcc([]) == 0
  {
  }

  // ----- the count of a session

  /** The session of a tester. */
  function Session(s: seq<TesterSlot>, pid: int): Option<TesterSlot> {
    if HasSession(s, pid) then Some(s[TesterIndex(s, pid)]) else None
  }

  /** The requests counted against it. */
  function Received(s: seq<TesterSlot>, pid: int): nat {
    match Session(s, pid)
    case None => 0
    case Some(ts) => ts.rcd
  }

  predicate Registers(ms: seq<RegisterMsg>, pid: int) {
    exists i :: 0 <= i < |ms| && ms[i].Register? && ms[i].pid == pid
  }

  /** The parse requests of a tester taken since its last registration. */
  ghost function ParsesSince(limit: int, trace: seq<Turn>, pid: int): nat {
    if trace == [] then 0
    else
      var s, t := RunServer(limit, trace[..|trace| - 1]).0, trace[|trace| - 1];
      var before := ParsesSince(limit, trace[..|trace| - 1], pid);
      if s.forceTermination then before
      else
        (if Registers(t.registers, pid) then 0 else before) +
        if Accepted(BeforeReport(s, limit, t).0, t.report) && t.report.value.pid == pid then 1 else 0
  }

  lemma PutMembers(s: seq<TesterSlot>, slot: TesterSlot)
    ensures forall x :: x in PutTester(s, slot) ==> x == slot || x in s
    ensures forall x :: x in s && x.pid != slot.pid ==> x in PutTester(s, slot)
  {
    var i := TesterIndex(s, slot.pid);
    hide TesterIndex;
    if i < |s| {
      assert s == s[..i] + [s[i]] + s[i + 1..];
    }
  }

  lemma SessionOf(s: seq<TesterSlot>, x: TesterSlot)
    requires OneSessionEach(s) && x in s
    ensures Session(s, x.pid) == Some(x)
  {
    var i :| 0 <= i < |s| && s[i] == x;
    assert HasSession(s, x.pid) by { HasSessionIff(s, x.pid); }
  }

  lemma SessionNone(s: seq<TesterSlot>, pid: int)
    requires forall x :: x in s ==> x.pid != pid
    ensures Session(s, pid) == None
  {
    HasSessionIff(s, pid);
  }

  /** Storing a session is an update of the map from testers to sessions. */
  lemma PutSession(s: seq<TesterSlot>, slot: TesterSlot, pid: int)
    requires OneSessionEach(s)
    ensures OneSessionEach(PutTester(s, slot))
    ensures Session(PutTester(s, slot), pid) == if pid == slot.pid then Some(slot) else Session(s, pid)
  {
    hide PutTester, Session;
    var r := PutTester(s, slot);
    PutTesterSessions(s, slot);
    PutMembers(s, slot);
    if pid == slot.pid {
      SessionOf(r, r[TesterIndex(r, pid)]);
    } else if x :| x in s && x.pid == pid {
      SessionOf(s, x);
      SessionOf(r, x);
    } else {
      SessionNone(s, pid);
      SessionNone(r, pid);
    }
  }

  /** The queue of the last registration of a tester. */
  function LastQueue(ms: seq<RegisterMsg>, pid: int): string {
    if ms == [] then ""
    else
      var m := ms[|ms| - 1];
      if m.Register? && m.pid == pid then m.queue else LastQueue(ms[..|ms| - 1], pid)
  }

  /** Reading the register queue starts a new session for every tester that registers, with the
      queue of its last registration, and leaves all others as they are. */
  lemma {:induction false} RegisterSessions(s: State, ms: seq<RegisterMsg>, pid: int)
    requires OneSessionEach(s.testerSlots)
    ensures OneSessionEach(RegisterAll(s, ms).testerSlots)
    ensures Session(RegisterAll(s, ms).testerSlots, pid) ==
            if Registers(ms, pid) then Some(TesterSlot(pid, LastQueue(ms, pid), 0, 0)) else Session(s.testerSlots, pid)
  {
    hide PutTester, Session, OneSessionEach;
    if ms != [] {
      var n := |ms| - 1;
      RegisterSessions(s, ms[..n], pid);
      if ms[n].Register? {
        PutSession(RegisterAll(s, ms[..n]).testerSlots, TesterSlot(ms[n].pid, ms[n].queue, 0, 0), pid);
      }
      assert Registers(ms[..n], pid) ==> Registers(ms, pid) by {
        assert forall i :: 0 <= i < n ==> ms[..n][i] == ms[i];
      }
      assert Registers(ms, pid) ==> Registers(ms[..n], pid) || (ms[n].Register? && ms[n].pid == pid) by {
        assert forall i :: 0 <= i < n ==> ms[..n][i] == ms[i];
      }
    }
  }

  /** So is the update of one session. */
  lemma UpdateSession(s: seq<TesterSlot>, i: nat, x: TesterSlot, pid: int)
    requires OneSessionEach(s) && i < |s| && x.pid == s[i].pid
    ensures OneSessionEach(s[i := x]) && Session(s, x.pid) == Some(s[i])
    ensures Session(s[i := x], pid) == if pid == x.pid then Some(x) else Session(s, pid)
  {
    var r := s[i := x];
    var j, k := TesterIndex(s, pid), TesterIndex(r, pid);
    SessionOf(s, s[i]);
    if j < |s| {
      assert r[j].pid == pid;
    }
    if pid == x.pid {
      assert r[i].pid == pid;
    }
  }

  lemma ForwardReceived(s: State, r: nat, result: int, pid: int)
    requires OneSessionEach(s.testerSlots) && r < |s.runSlots|
    ensures
      var t := Forward(s, r, result).0;
      OneSessionEach(t.testerSlots) && Received(t.testerSlots, pid) == Received(s.testerSlots, pid)
  {
    hide Session, Without, ScanSessions, OneSessionEach;
    var i := ScanSessions(s.testerSlots, s.runSlots[r].tester);
    ScanInRange(s.testerSlots, s.runSlots[r].tester);
    if i.Some? {
      var ts := s.testerSlots[i.value];
      var x := ts.(acc := ts.acc + if result == 1 then 1 else 0);
      UpdateSession(s.testerSlots, i.value, x, pid);
    }
  }

  lemma RunReceived(s: State, limit: int, msg: Option<RunMsg>, pid: int)
    requires OneSessionEach(s.testerSlots)
    ensures
      var t := HandleRun(s, limit, msg).0;
      OneSessionEach(t.testerSlots) && Received(t.testerSlots, pid) == Received(s.testerSlots, pid)
  {
    hide RunIndex, Received, Forward, OneSessionEach;
    if msg.Some? && msg.value.Terminate? {
      var t := Unthrottle(s.(active := s.active - 1), limit);
      var r := RunIndex(t.runSlots, msg.value.pid);
      if r < |t.runSlots| {
        ForwardReceived(t, r, msg.value.result, pid);
      }
    }
  }

  /** A request counts once for its own tester, whose session is opened with the queue of the
      request if it is missing, and for no other. */
  lemma ChargeSessions(s: State, tester: int, queue: string, pid: int)
    requires OneSessionEach(s.testerSlots)
    ensures
      var t, before := Charge(s, tester, queue), Session(s.testerSlots, tester);
      var ts := if before == None then TesterSlot(tester, queue, 0, 0) else before.value;
      && OneSessionEach(t.testerSlots)
      && Session(t.testerSlots, pid) ==
         if pid == tester then Some(ts.(rcd := ts.rcd + 1)) else Session(s.testerSlots, pid)
  {
    hide PutTester, OneSessionEach;
    var slot := TesterSlot(tester, queue, 0, 0);
    var slots := if HasSession(s.testerSlots, tester) then s.testerSlots else PutTester(s.testerSlots, slot);
    PutSession(s.testerSlots, slot, pid);
    PutSession(s.testerSlots, slot, tester);
    var i := TesterIndex(slots, tester);
    UpdateSession(slots, i, slots[i].(rcd := slots[i].rcd + 1), pid);
  }

  lemma ChargeReceived(s: State, tester: int, queue: string, pid: int)
    requires OneSessionEach(s.testerSlots)
    ensures
      var t := Charge(s, tester, queue);
      && OneSessionEach(t.testerSlots)
      && Received(t.testerSlots, pid) == Received(s.testerSlots, pid) + if pid == tester then 1 else 0
  {
    hide Charge, OneSessionEach, Session;
    ChargeSessions(s, tester, queue, pid);
  }

  /** The count of each session is the number of parse requests its tester sent since the
      session was last created. */
  lemma {:induction false} SessionCounts(limit: int, trace: seq<Turn>, pid: int)
    ensures
      var s := RunServer(limit, trace).0.testerSlots;
      OneSessionEach(s) && Received(s, pid) == ParsesSince(limit, trace, pid)
  {
    hide Session, HandleRun, RegisterAll, Charge, Spawned, Broadcast, PutRun, Registers;
    if trace == [] {
      NoSession(pid);
    } else {
      var s, t := RunServer(limit, trace[..|trace| - 1]).0, trace[|trace| - 1];
      SessionCounts(limit, trace[..|trace| - 1], pid);
      if !s.forceTermination {
        RegisterSessions(s, t.registers, pid);
        RunReceived(Throttle(RegisterAll(s, t.registers), limit), limit, t.run, pid);
        if t.report.Some? && t.report.value.Parse? {
          ChargeReceived(BeforeReport(s, limit, t).0, t.report.value.pid, t.report.value.queue, pid);
        }
      }
    }
  }

  lemma NoSession(pid: int)
    ensures Received([], pid) == 0
  {
  }

  /** A parse request opens a slot for its own tester and local id if a worker started, and none
      otherwise; it counts once, for its own tester; any other message only can ask to stop. */
  lemma ReportEffects(s: State, msg: Option<ReportMsg>, spawned: Option<int>)
    requires OneSessionEach(s.testerSlots)
    requires spawned.Some? && Accepted(s, msg) ==> RunIndex(s.runSlots, spawned.value) == |s.runSlots|
    ensures
      var t := HandleReport(s, msg, spawned);
      if !Accepted(s, msg) then t == s.(shouldTerminate := s.shouldTerminate || msg == Some(Stop))
      else
        var m := msg.value;
        && t.rcd == s.rcd + 1 && HasSession(t.testerSlots, m.pid)
        && (forall pid :: Received(t.testerSlots, pid) == Received(s.testerSlots, pid) + if pid == m.pid then 1 else 0)
        && if spawned == None then t.runSlots == s.runSlots && t.active == s.active
           else t.runSlots == s.runSlots + [RunSlot(spawned.value, m.pid, m.loc)] && t.active == s.active + 1
  {
    hide Received, Charge, SumRcd, SumAcc, RunIndex;
    if Accepted(s, msg) {
      var m := msg.value;
      ChargeKeeps(s, m.pid, m.queue);
      forall pid
        ensures Received(Charge(s, m.pid, m.queue).testerSlots, pid) ==
                Received(s.testerSlots, pid) + if pid == m.pid then 1 else 0
      {
        ChargeReceived(s, m.pid, m.queue, pid);
      }
    }
  }

  // ----- the messages of the loop

  /** The answer owed for a report: to the session of the tester of its worker's slot, under the
      slot's local id, with the reported result. A stray report is owed none. */
  ghost function OwedFor(slots: seq<RunSlot>, sessions: seq<TesterSlot>, run: Option<RunMsg>): seq<Mail> {
    if run == None || run.value.BadRun? || RunIndex(slots, run.value.pid) == |slots| then []
    else
      var x := slots[RunIndex(slots, run.value.pid)];
      match Session(sessions, x.tester)
      case None => []
      case Some(ts) => [Mail(ts.queue, Answer(x.loc, run.value.result))]
  }

  /** What is owed for the report a turn reads, with the sessions there are once it has read the
      register queue. */
  ghost function Owed(s: State, t: Turn): seq<Mail> {
    OwedFor(s.runSlots, RegisterAll(s, t.registers).testerSlots, t.run)
  }

  /** What is owed over a trace, in reading order, until the loop is left. */
  ghost function AllOwed(limit: int, trace: seq<Turn>): seq<Mail> {
    if trace == [] then []
    else
      var s := RunServer(limit, trace[..|trace| - 1]).0;
      AllOwed(limit, trace[..|trace| - 1]) + if s.forceTermination then [] else Owed(s, trace[|trace| - 1])
  }

  /** One exit message to each session. */
  function Exits(s: seq<TesterSlot>): seq<Mail> {
    seq(|s|, i requires 0 <= i < |s| => Mail(s[i].queue, ServerExit))
  }

  /** The answers with result 1. */
  function Won(mail: seq<Mail>): nat {
    if mail == [] then 0
    else
      var m := mail[|mail| - 1].msg;
      Won(mail[..|mail| - 1]) + if m.Answer? && m.result == 1 then 1 else 0
  }

  lemma {:induction false} WonSplit(a: seq<Mail>, b: seq<Mail>)
    ensures Won(a + b) == Won(a) + Won(b)
  {
    if b == [] {
      assert a + b == a;
    } else {
      assert (a + b)[..|a + b| - 1] == a + b[..|b| - 1];
      WonSplit(a, b[..|b| - 1]);
    }
  }

  lemma {:induction false} BroadcastIsExits(s: seq<TesterSlot>)
    ensures Broadcast(s) == Exits(s)
  {
    if s != [] {
      BroadcastIsExits(s[..|s| - 1]);
    }
  }

  lemma ForwardedCounts(s: State, failures: nat, r: nat, result: int)
    requires Kept(s, failures) && r < |s.runSlots|
    ensures
      var (t, mail) := Forward(s, r, result);
      && t.snt == s.snt + |mail| && t.acc == s.acc + Won(mail) && t.forceTermination == s.forceTermination
      && Session(s.testerSlots, s.runSlots[r].tester).Some?
      && mail == [Mail(Session(s.testerSlots, s.runSlots[r].tester).value.queue, Answer(s.runSlots[r].loc, result))]
  {
    hide SumRcd, SumAcc, TesterIndex;
    ForwardKeeps(s, failures, r, result);
    ForwardEffects(s, failures, r, result);
    var mail := Forward(s, r, result).1;
    assert mail[..0] == [];
  }

  lemma RunOwes(s: State, limit: int, failures: nat, msg: Option<RunMsg>)
    requires Kept(s, failures)
    ensures
      var (u, mail) := HandleRun(s, limit, msg);
      mail == OwedFor(s.runSlots, s.testerSlots, msg) && u.snt == s.snt + |mail| && u.acc == s.acc + Won(mail)
  {
    hide SumRcd, SumAcc, Forward, TesterIndex, Session, RunIndex;
    if msg.Some? && msg.value.Terminate? {
      var u := Unthrottle(s.(active := s.active - 1), limit);
      var r := RunIndex(u.runSlots, msg.value.pid);
      if r < |u.runSlots| {
        ForwardedCounts(u, failures, r, msg.value.result);
      }
    }
  }

  /** A turn up to the report queue sends what is owed and counts it. */
  lemma TurnOwes(s: State, limit: int, failures: nat, t: Turn)
    requires Kept(s, failures)
    ensures
      var (u, mail) := BeforeReport(s, limit, t);
      mail == Owed(s, t) && u.snt == s.snt + |mail| && u.acc == s.acc + Won(mail)
  {
    hide SumRcd, SumAcc, HandleRun, RegisterAll, OwedFor, Won, OnePidEach, OneSessionEach, HasSession;
    RegisterKeeps(s, failures, t.registers);
    RunOwes(Throttle(RegisterAll(s, t.registers), limit), limit, failures, t.run);
  }

  lemma ReportCounts(s: State, msg: Option<ReportMsg>, spawned: Option<int>)
    ensures
      var t := HandleReport(s, msg, spawned);
      t.snt == s.snt && t.acc == s.acc && t.forceTermination == s.forceTermination
  {
    hide TesterIndex, PutTester, PutRun;
  }

  /** The messages of the loop over every trace, stray reports included: the answers owed for the
      reports read, in reading order, as many as the server counts as sent and with as many results 1
      as it counts as accepted; and after forced termination exactly one exit to each session. */
  lemma {:induction false} LoopMessages(limit: int, trace: seq<Turn>)
    requires FreshPids(limit, trace)
    ensures
      var (s, sent) := RunServer(limit, trace);
      var answers := AllOwed(limit, trace);
      && sent == answers + (if s.forceTermination then Exits(s.testerSlots) else [])
      && |answers| == s.snt && Won(answers) == s.acc
  {
    hide BeforeReport, HandleReport, Spawned, Broadcast, Owed, Kept;
    if trace != [] {
      var shorter, t := trace[..|trace| - 1], trace[|trace| - 1];
      var s := RunServer(limit, shorter).0;
      LoopMessages(limit, shorter);
      assert AllOwed(limit, shorter) + [] == AllOwed(limit, shorter);
      if !s.forceTermination {
        Conservation(limit, shorter);
        var (u, mail) := BeforeReport(s, limit, t);
        TurnOwes(s, limit, Failures(limit, shorter), t);
        ReportCounts(u, t.report, Spawned(t.attempts, RETRIES));
        var v := HandleReport(u, t.report, Spawned(t.attempts, RETRIES));
        BroadcastIsExits(v.testerSlots);
        WonSplit(AllOwed(limit, shorter), mail);
      }
    }
  }

  // ----- throttling

  /** A blocking read returns a message, and run messages have the right form. */
  ghost predicate WellFormedRuns(limit: int, trace: seq<Turn>) {
    trace == [] ||
    var s, t := RunServer(limit, trace[..|trace| - 1]).0, trace[|trace| - 1];
    && WellFormedRuns(limit, trace[..|trace| - 1])
    && (t.run.Some? ==> t.run.value.Terminate?)
    && (!s.forceTermination && Throttle(RegisterAll(s, t.registers), limit).runBlocking ==> t.run.Some?)
  }

  lemma {:induction false} RegisterOnlySessions(s: State, ms: seq<RegisterMsg>)
    ensures RegisterAll(s, ms) == s.(testerSlots := RegisterAll(s, ms).testerSlots)
  {
    if ms != [] {
      RegisterOnlySessions(s, ms[..|ms| - 1]);
    }
  }

  /** What a run message does apart from the sessions and statistics. */
  lemma RunEffects(s: State, limit: int, msg: Option<RunMsg>)
    requires msg.Some? && msg.value.Terminate?
    ensures
      var u, r := HandleRun(s, limit, msg).0, RunIndex(s.runSlots, msg.value.pid);
      && u.active == s.active - 1
      && u.throttled == (s.throttled && u.active >= limit)
      && (s.runBlocking == s.throttled ==> u.runBlocking == u.throttled)
      && u.runSlots == Without(s.runSlots, r)
  {
    hide ScanSessions, RunIndex;
  }

  lemma Modes(s: State, limit: int, t: Turn)
    requires s.runBlocking == s.throttled && (t.run.Some? ==> t.run.value.Terminate?)
    requires Throttle(RegisterAll(s, t.registers), limit).runBlocking ==> t.run.Some?
    requires s.active <= limit + 1
    ensures
      var u := BeforeReport(s, limit, t).0;
      u.active <= limit && u.runBlocking == u.throttled
  {
    hide HandleRun, RegisterAll;
    RegisterOnlySessions(s, t.registers);
    var v := Throttle(RegisterAll(s, t.registers), limit);
    if t.run.Some? {
      RunEffects(v, limit, t.run);
    } else {
      assert HandleRun(v, limit, t.run).0 == v by { NoRun(v, limit); }
    }
  }

  lemma NoRun(s: State, limit: int)
    ensures HandleRun(s, limit, None) == (s, [])
  {
  }

  /** The number of active workers exceeds the limit by at most one. */
  lemma {:induction false} ActiveBound(limit: int, trace: seq<Turn>)
    requires limit >= 0 && WellFormedRuns(limit, trace)
    ensures
      var s := RunServer(limit, trace).0;
      s.active <= limit + 1 && s.runBlocking == s.throttled
  {
    hide BeforeReport, Spawned, Broadcast, PutTester, PutRun, RegisterAll, TesterIndex;
    if trace != [] {
      var s, t := RunServer(limit, trace[..|trace| - 1]).0, trace[|trace| - 1];
      ActiveBound(limit, trace[..|trace| - 1]);
      if !s.forceTermination {
        Modes(s, limit, t);
      }
    }
  }

  /** No worker fails, and every report is by the worker of an open slot. */
  ghost predicate CleanTrace(limit: int, trace: seq<Turn>) {
    trace == [] ||
    var s, t := RunServer(limit, trace[..|trace| - 1]).0, trace[|trace| - 1];
    && CleanTrace(limit, trace[..|trace| - 1])
    && t.status != -1
    && (t.run.Some? && !s.forceTermination ==>
          t.run.value.Terminate? && RunIndex(s.runSlots, t.run.value.pid) < |s.runSlots|)
  }

  ghost predicate Balanced(s: State, limit: int) {
    && OnePidEach(s.runSlots) && s.active == |s.runSlots|
    && s.runBlocking == s.throttled && (s.throttled ==> s.active >= limit)
  }

  lemma BalancedBefore(s: State, limit: int, t: Turn)
    requires Balanced(s, limit) && t.status != -1
    requires t.run.Some? ==> t.run.value.Terminate? && RunIndex(s.runSlots, t.run.value.pid) < |s.runSlots|
    ensures Balanced(Throttle(RegisterAll(s, t.registers), limit), limit)
    ensures Balanced(BeforeReport(s, limit, t).0, limit)
  {
    hide HandleRun, RegisterAll, RunIndex;
    RegisterOnlySessions(s, t.registers);
    var v := Throttle(RegisterAll(s, t.registers), limit);
    if t.run.Some? {
      RunEffects(v, limit, t.run);
      WithoutRun(s.runSlots, RunIndex(s.runSlots, t.run.value.pid));
    } else {
      NoRun(v, limit);
    }
  }

  /** Without failures and strays the count of active workers is that of the open slots, and
      when the server blocks on the workers' queue at least `limit` of them have yet to report. */
  lemma {:induction false} BlockingReadHasWorkers(limit: int, trace: seq<Turn>, registers: seq<RegisterMsg>)
    requires CleanTrace(limit, trace) && FreshPids(limit, trace)
    ensures
      var s := RunServer(limit, trace).0;
      var u := Throttle(RegisterAll(s, registers), limit);
      Balanced(s, limit) && (u.runBlocking ==> |u.runSlots| >= limit)
  {
    hide BeforeReport, Spawned, Broadcast, PutTester;
    RegisterOnlySessions(RunServer(limit, trace).0, registers);
    if trace != [] {
      var s, t := RunServer(limit, trace[..|trace| - 1]).0, trace[|trace| - 1];
      BlockingReadHasWorkers(limit, trace[..|trace| - 1], registers);
      if !s.forceTermination {
        BalancedBefore(s, limit, t);
      }
    }
  }
}

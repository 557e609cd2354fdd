/** The control-command queue of internal/commands: producers, several consumers, crashes
    and failed updates as interleaved steps over one table of rows. */
module Commands {
  import opened Text

  // ---- commands.go ----

  const TARGET_LIVE := "live"

  /** strings.ToLower(strings.TrimSpace(mode)). */
  function Normalize(mode: string): string {
    var t := TrimSpace(mode);
    seq(|t|, i requires 0 <= i < |t| => LowerChar(t[i]))
  }

  predicate IsValidName(n: string) {
    n in {"start", "stop", "set_mode", "halt", "resume", "kill", "flatten", "emergency_kill", "reconcile"}
  }

  predicate RequiresConfirmation(n: string, mode: string) {
    || n == "flatten" || n == "emergency_kill"
    || (n == "set_mode" && (Normalize(mode) == "paper" || Normalize(mode) == "live"))
  }

  /** Command.Validate. */
  predicate Validates(n: string, mode: string) {
    IsValidName(n) && (n == "set_mode" ==> Normalize(mode) in {"signal", "paper", "live"})
  }

  // ---- the table and its clients ----

  datatype Status = Pending | Acknowledged | Completed | Rejected

  /** The args column: decodable, or not. The confirmation token is never stored. */
  datatype Args = Malformed | Decoded(mode: string)

  datatype Row = Row(target: string, name: string, args: Args, status: Status)

  datatype Command = Command(id: nat, name: string, mode: string)

  /** The Command{} that claim returns after rejecting a row with malformed args. */
  const NO_COMMAND := Command(0, "", "")

  /** What a consumer process is in the middle of. */
  datatype Work = Holding(cmd: Command) | Closing(id: nat, status: Status) | Discarding(id: nat)

  /** The table, its identity counter, the consumers, and every call the controller got. */
  datatype State = State(rows: map<nat, Row>, nextID: nat, work: map<nat, Work>, calls: seq<Command>)

  const EMPTY := State(map[], 1, map[], [])

  datatype Params = Params(name: string, mode: string, token: string, requestedBy: string)

  datatype Step =
    | Enqueue(p: Params)
    | Foreign(row: Row)             // another writer: other targets, or malformed args
    | Claim(consumer: nat, id: nat)
    | Apply(consumer: nat, succeeds: bool)
    | Finish(consumer: nat, stored: bool)
    | Crash(consumer: nat)

  /** Enqueuer.tokenOK. */
  predicate TokenOK(want: string, token: string) {
    if want != "" then TrimSpace(token) == want else TrimSpace(token) != ""
  }

  predicate EnqueueAllowed(want: string, p: Params) {
    && IsValidName(p.name) && TrimSpace(p.requestedBy) != "" && Validates(p.name, p.mode)
    && (RequiresConfirmation(p.name, p.mode) ==> TokenOK(want, p.token))
  }

  function Insert(s: State, row: Row): State {
    s.(rows := s.rows[s.nextID := row], nextID := s.nextID + 1)
  }

  /** UPDATE ... WHERE id = $1: no effect when there is no such row. */
  function Update(rows: map<nat, Row>, id: nat, status: Status): map<nat, Row> {
    if id in rows then rows[id := rows[id].(status := status)] else rows
  }

  /** One step of the system; a step that is not enabled leaves the state alone. */
  function Next(want: string, s: State, step: Step): State {
    match step
    case Enqueue(p) =>
      if EnqueueAllowed(want, p) then Insert(s, Row(TARGET_LIVE, p.name, Decoded(p.mode), Pending)) else s
    case Foreign(row) =>
      if row.status == Pending && (row.target != TARGET_LIVE || row.args == Malformed) then Insert(s, row) else s
    case Claim(c, id) =>
      if c !in s.work && id in s.rows && s.rows[id].target == TARGET_LIVE && s.rows[id].status == Pending then
        var row := s.rows[id];
        var job := match row.args
                   case Malformed => Discarding(id)
                   case Decoded(mode) => Holding(Command(id, row.name, mode));
        s.(rows := Update(s.rows, id, Acknowledged), work := s.work[c := job])
      else s
    case Apply(c, succeeds) =>
      if c in s.work && s.work[c].Holding? then
        var cmd := s.work[c].cmd;
        if !Validates(cmd.name, cmd.mode) then s.(work := s.work[c := Closing(cmd.id, Rejected)])
        else
          s.(calls := s.calls + [cmd],
             work := s.work[c := Closing(cmd.id, if succeeds then Completed else Rejected)])
      else s
    case Finish(c, stored) =>
      if c !in s.work || s.work[c].Holding? then s
      else if s.work[c].Closing? then
        s.(rows := if stored then Update(s.rows, s.work[c].id, s.work[c].status) else s.rows, work := s.work - {c})
      else
        s.(rows := if stored then Update(s.rows, s.work[c].id, Rejected) else s.rows,
           work := s.work[c := Holding(NO_COMMAND)])
    case Crash(c) => s.(work := s.work - {c})
  }

  function RunSteps(want: string, steps: seq<Step>): State {
    if steps == [] then EMPTY
    else Next(want, RunSteps(want, steps[..|steps| - 1]), steps[|steps| - 1])
  }

  // ---- the invariant ----

  /** Decodable live rows were enqueued through Enqueue's checks. */
  predicate RowOk(s: State, id: nat)
    requires id in s.rows
  {
    var row := s.rows[id];
    row.target == TARGET_LIVE && row.args.Decoded? ==> Validates(row.name, row.args.mode)
  }

  /** The command is this table's row, claimed and decodable. */
  predicate Claimed(s: State, cmd: Command) {
    && cmd.id in s.rows
    && s.rows[cmd.id] == Row(TARGET_LIVE, cmd.name, Decoded(cmd.mode), s.rows[cmd.id].status)
    && s.rows[cmd.id].status != Pending
  }

  predicate Called(s: State, id: nat) {
    exists i :: 0 <= i < |s.calls| && s.calls[i].id == id
  }

  function WorkID(w: Work): nat {
    match w
    case Holding(cmd) => cmd.id
    case Closing(id, _) => id
    case Discarding(id) => id
  }

  predicate WorkOk(s: State, w: Work) {
    match w
    case Holding(cmd) =>
      cmd == NO_COMMAND || (Claimed(s, cmd) && s.rows[cmd.id].status == Acknowledged && !Called(s, cmd.id))
    case Closing(id, status) =>
      (status == Completed || status == Rejected) && (id == 0 || (id in s.rows && s.rows[id].status == Acknowledged))
    case Discarding(id) =>
      id in s.rows && s.rows[id].status == Acknowledged && s.rows[id].args == Malformed
  }

  ghost predicate Inv(s: State) {
    && s.nextID > 0
    && (forall id :: id in s.rows ==> 0 < id < s.nextID && RowOk(s, id))
    && (forall c :: c in s.work ==> WorkOk(s, s.work[c]))
    && (forall c, d :: c in s.work && d in s.work && c != d && WorkID(s.work[c]) != 0 ==>
          WorkID(s.work[c]) != WorkID(s.work[d]))
    && (forall i :: 0 <= i < |s.calls| ==> Claimed(s, s.calls[i]))
    && (forall i, j :: 0 <= i < j < |s.calls| ==> s.calls[i].id != s.calls[j].id)
  }

  lemma InsertKeeps(s: State, row: Row)
    requires Inv(s) && row.status == Pending
    requires row.target == TARGET_LIVE && row.args.Decoded? ==> Validates(row.name, row.args.mode)
    ensures Inv(Insert(s, row))
  {
    hide Validates;
    var t := Insert(s, row);
    forall c | c in t.work ensures WorkOk(t, t.work[c]) {
      assert WorkOk(s, s.work[c]);
    }
    forall i | 0 <= i < |t.calls| ensures Claimed(t, t.calls[i]) {
      assert Claimed(s, s.calls[i]);
    }
    forall j | j in t.rows ensures RowOk(t, j) {
      if j in s.rows { assert RowOk(s, j); }
    }
  }

  /** No consumer is at work on a row that is still pending. */
  lemma PendingIsIdle(s: State, id: nat)
    requires Inv(s) && id in s.rows && s.rows[id].status == Pending
    ensures !Called(s, id)
    ensures forall d :: d in s.work ==> WorkID(s.work[d]) != id
  {
  }

  lemma AcknowledgeKeeps(s: State, id: nat)
    requires Inv(s) && id in s.rows && s.rows[id].status == Pending
    ensures Inv(s.(rows := Update(s.rows, id, Acknowledged)))
  {
    hide Validates;
    var t := s.(rows := Update(s.rows, id, Acknowledged));
    forall d | d in t.work ensures WorkOk(t, t.work[d]) {
      assert WorkOk(s, s.work[d]);
    }
    forall i | 0 <= i < |t.calls| ensures Claimed(t, t.calls[i]) {
      assert Claimed(s, s.calls[i]);
    }
    forall j | j in t.rows ensures RowOk(t, j) {
      assert RowOk(s, j);
    }
  }

  lemma ClaimKeeps(want: string, s: State, c: nat, id: nat)
    requires Inv(s)
    ensures Inv(Next(want, s, Claim(c, id)))
  {
    hide Inv, Validates;
    var t := Next(want, s, Claim(c, id));
    if t != s {
      PendingIsIdle(s, id);
      AcknowledgeKeeps(s, id);
      var u := s.(rows := Update(s.rows, id, Acknowledged));
      AssignKeeps(u, c, t.work[c]);
    }
  }

  lemma ApplyKeeps(want: string, s: State, c: nat, succeeds: bool)
    requires Inv(s)
    ensures Inv(Next(want, s, Apply(c, succeeds)))
  {
    hide Inv;
    if c in s.work && s.work[c].Holding? {
      var cmd := s.work[c].cmd;
      WorkFacts(s, c);
      if !Validates(cmd.name, cmd.mode) {
        AssignKeeps(s, c, Closing(cmd.id, Rejected));
      } else {
        assert cmd != NO_COMMAND;
        CallKeeps(s, c, cmd);
        var w := Closing(cmd.id, if succeeds then Completed else Rejected);
        AssignKeeps(s.(calls := s.calls + [cmd], work := s.work - {c}), c, w);
        assert (s.work - {c})[c := w] == s.work[c := w];
      }
    }
  }

  lemma WorkFacts(s: State, c: nat)
    requires Inv(s) && c in s.work
    ensures WorkOk(s, s.work[c])
    ensures forall d :: d in s.work && d != c && WorkID(s.work[c]) != 0 ==> WorkID(s.work[d]) != WorkID(s.work[c])
    ensures forall id :: id in s.rows ==> id > 0
  {
  }

  /** A consumer may take up any sound work whose row no other consumer has. */
  lemma AssignKeeps(s: State, c: nat, w: Work)
    requires Inv(s) && WorkOk(s, w)
    requires forall d :: d in s.work && d != c && WorkID(w) != 0 ==> WorkID(s.work[d]) != WorkID(w)
    ensures Inv(s.(work := s.work[c := w]))
  {
    hide Validates;
    var t := s.(work := s.work[c := w]);
    forall d | d in t.work ensures WorkOk(t, t.work[d]) {
      if d != c { assert WorkOk(s, s.work[d]); }
    }
    CallsCarry(s, t);
  }

  lemma CallsCarry(s: State, t: State)
    requires Inv(s) && t.rows == s.rows && t.calls == s.calls && t.nextID == s.nextID
    ensures forall i :: 0 <= i < |t.calls| ==> Claimed(t, t.calls[i])
    ensures forall j :: j in t.rows ==> RowOk(t, j)
  {
  }

  /** The call itself: the command leaves the consumer's hands and enters the call log. */
  lemma CallKeeps(s: State, c: nat, cmd: Command)
    requires Inv(s) && c in s.work && s.work[c] == Holding(cmd) && cmd != NO_COMMAND
    ensures Inv(s.(calls := s.calls + [cmd], work := s.work - {c}))
  {
    hide Validates;
    var t := s.(calls := s.calls + [cmd], work := s.work - {c});
    assert WorkOk(s, s.work[c]);
    assert cmd.id != 0;
    forall d | d in t.work ensures WorkOk(t, t.work[d]) {
      assert WorkOk(s, s.work[d]);
      assert WorkID(s.work[c]) != WorkID(s.work[d]);
    }
    forall i, j | 0 <= i < j < |t.calls| ensures t.calls[i].id != t.calls[j].id {
      if j == |s.calls| { assert s.calls[i].id != cmd.id; }
    }
    forall i | 0 <= i < |t.calls| ensures Claimed(t, t.calls[i]) {
      if i < |s.calls| { assert Claimed(s, s.calls[i]); }
    }
    forall j | j in t.rows ensures RowOk(t, j) {
      assert RowOk(s, j);
    }
  }

  lemma FinishKeeps(want: string, s: State, c: nat, stored: bool)
    requires Inv(s)
    ensures Inv(Next(want, s, Finish(c, stored)))
  {
    hide Inv, Validates, EnqueueAllowed;
    if c in s.work && !s.work[c].Holding? {
      var w := s.work[c];
      WorkFacts(s, c);
      CrashKeeps(want, s, c);
      var t := s.(work := s.work - {c});
      var u := t;
      if stored {
        var status := if w.Closing? then w.status else Rejected;
        CloseKeeps(t, w.id, status);
        u := t.(rows := Update(t.rows, w.id, status));
      }
      if w.Discarding? {
        AssignKeeps(u, c, Holding(NO_COMMAND));
        assert u.work[c := Holding(NO_COMMAND)] == s.work[c := Holding(NO_COMMAND)];
      }
    }
  }

  /** Closing an acknowledged row that no consumer is working on. */
  lemma CloseKeeps(s: State, id: nat, status: Status)
    requires Inv(s) && (status == Completed || status == Rejected)
    requires forall d :: d in s.work && id != 0 ==> WorkID(s.work[d]) != id
    ensures Inv(s.(rows := Update(s.rows, id, status)))
  {
    hide Validates;
    var t := s.(rows := Update(s.rows, id, status));
    forall d | d in t.work ensures WorkOk(t, t.work[d]) {
      assert WorkOk(s, s.work[d]);
    }
    forall i | 0 <= i < |t.calls| ensures Claimed(t, t.calls[i]) {
      assert Claimed(s, s.calls[i]);
    }
    forall j | j in t.rows ensures RowOk(t, j) {
      assert RowOk(s, j);
    }
  }

  lemma CrashKeeps(want: string, s: State, c: nat)
    requires Inv(s)
    ensures Inv(Next(want, s, Crash(c)))
  {
    hide Validates;
    var t := Next(want, s, Crash(c));
    forall d | d in t.work ensures WorkOk(t, t.work[d]) {
      assert WorkOk(s, s.work[d]);
    }
    forall i | 0 <= i < |t.calls| ensures Claimed(t, t.calls[i]) {
      assert Claimed(s, s.calls[i]);
    }
    forall j | j in t.rows ensures RowOk(t, j) {
      assert RowOk(s, j);
    }
  }

  lemma StepKeeps(want: string, s: State, step: Step)
    requires Inv(s)
    ensures Inv(Next(want, s, step))
  {
    match step {
      case Enqueue(p) =>
        if EnqueueAllowed(want, p) {
          InsertKeeps(s, Row(TARGET_LIVE, p.name, Decoded(p.mode), Pending));
        }
      case Foreign(row) =>
        if row.status == Pending && (row.target != TARGET_LIVE || row.args == Malformed) {
          InsertKeeps(s, row);
        }
      case Claim(c, id) => ClaimKeeps(want, s, c, id);
      case Apply(c, succeeds) => ApplyKeeps(want, s, c, succeeds);
      case Finish(c, stored) => FinishKeeps(want, s, c, stored);
      case Crash(c) => CrashKeeps(want, s, c);
    }
  }

  lemma {:induction false} RunKeeps(want: string, steps: seq<Step>)
    ensures Inv(RunSteps(want, steps))
  {
    if steps != [] {
      hide Inv, Next;
      RunKeeps(want, steps[..|steps| - 1]);
      StepKeeps(want, RunSteps(want, steps[..|steps| - 1]), steps[|steps| - 1]);
    }
  }

  // ---- what every run guarantees ----

  /** The controller is invoked at most once per command id, under any interleaving of
      producers, consumers, crashes and failed updates. */
  lemma AtMostOnce(want: string, steps: seq<Step>, i: nat, j: nat)
    requires i < |RunSteps(want, steps).calls| && j < |RunSteps(want, steps).calls| && i != j
    ensures RunSteps(want, steps).calls[i].id != RunSteps(want, steps).calls[j].id
  {
    hide RunSteps;
    RunKeeps(want, steps);
  }

  /** pending, then acknowledged, then completed or rejected. */
  predicate MayBecome(a: Status, b: Status) {
    a == b || a == Pending || (a == Acknowledged && b != Pending)
  }

  lemma StepAdvances(want: string, s: State, step: Step, id: nat)
    requires Inv(s) && id in s.rows
    ensures var t := Next(want, s, step);
            && id in t.rows && t.rows[id].(status := Pending) == s.rows[id].(status := Pending)
            && (t.rows[id].status == s.rows[id].status
                || (s.rows[id].status == Pending && t.rows[id].status == Acknowledged)
                || (s.rows[id].status == Acknowledged && t.rows[id].status in {Completed, Rejected}))
            && |t.calls| >= |s.calls| && t.calls[..|s.calls|] == s.calls
  {
    hide EnqueueAllowed, TokenOK, Validates;
    match step {
      case Finish(c, stored) =>
        if c in s.work { assert WorkOk(s, s.work[c]); }
      case _ =>
    }
  }

  /** Where a decodable live row came from: one Enqueue step that passed every check. */
  lemma {:induction false} RowOrigin(want: string, steps: seq<Step>, id: nat) returns (n: nat)
    requires id in RunSteps(want, steps).rows
    requires RunSteps(want, steps).rows[id].target == TARGET_LIVE && RunSteps(want, steps).rows[id].args.Decoded?
    ensures n < |steps| && steps[n].Enqueue? && EnqueueAllowed(want, steps[n].p)
    ensures RunSteps(want, steps[..n]).nextID == id
    ensures steps[n].p.name == RunSteps(want, steps).rows[id].name
    ensures steps[n].p.mode == RunSteps(want, steps).rows[id].args.mode
  {
    var init, last := steps[..|steps| - 1], steps[|steps| - 1];
    var s := RunSteps(want, init);
    if id in s.rows {
      RunKeeps(want, init);
      StepAdvances(want, s, last, id);
      hide Next, Inv, EnqueueAllowed;
      n := RowOrigin(want, init, id);
      assert steps[..n] == init[..n];
    } else {
      hide EnqueueAllowed, Validates;
      n := |steps| - 1;
      assert steps[..n] == init;
    }
  }

  /** A command reaches the controller only if an Enqueue step with that very name and mode
      passed every check - for flatten, emergency_kill and a switch to paper or live, with an
      accepted token. Rows with malformed args never reach it. */
  lemma PrivilegedNeedsToken(want: string, steps: seq<Step>, i: nat) returns (n: nat)
    requires i < |RunSteps(want, steps).calls|
    ensures var cmd := RunSteps(want, steps).calls[i];
            && n < |steps| && steps[n].Enqueue?
            && RunSteps(want, steps[..n]).nextID == cmd.id
            && steps[n].p.name == cmd.name && steps[n].p.mode == cmd.mode
            && WellNamed(cmd.name, cmd.mode)
            && (|| cmd.name in {"flatten", "emergency_kill"}
                || (cmd.name == "set_mode" && Normalize(cmd.mode) in {"paper", "live"}) ==>
                  if want != "" then TrimSpace(steps[n].p.token) == want else TrimSpace(steps[n].p.token) != "")
  {
    hide RunSteps, Normalize, TrimSpace;
    RunKeeps(want, steps);
    var s := RunSteps(want, steps);
    assert Claimed(s, s.calls[i]);
    n := RowOrigin(want, steps, s.calls[i].id);
  }

  /** Over any run a row's status only moves forward, its content never changes, and what
      the controller was called with is never forgotten. */
  lemma {:induction false} StatusOnlyAdvances(want: string, steps: seq<Step>, n: nat, id: nat)
    requires n <= |steps| && id in RunSteps(want, steps[..n]).rows
    ensures var s, t := RunSteps(want, steps[..n]), RunSteps(want, steps);
            && id in t.rows && t.rows[id].(status := Pending) == s.rows[id].(status := Pending)
            && MayBecome(s.rows[id].status, t.rows[id].status)
            && |t.calls| >= |s.calls| && t.calls[..|s.calls|] == s.calls
    decreases |steps|
  {
    if n == |steps| {
      assert steps[..n] == steps;
    } else {
      var init := steps[..|steps| - 1];
      assert init[..n] == steps[..n];
      StatusOnlyAdvances(want, init, n, id);
      RunKeeps(want, init);
      hide Next, Inv;
      StepAdvances(want, RunSteps(want, init), steps[|steps| - 1], id);
    }
  }

  /** A claim that crashes before the call loses the command rather than repeating it: once
      acknowledged a row is never handed out again. */
  lemma ClaimedOnce(want: string, steps: seq<Step>, n: nat, id: nat, c: nat)
    requires n <= |steps| && id in RunSteps(want, steps[..n]).rows
    requires RunSteps(want, steps[..n]).rows[id].status != Pending
    ensures Next(want, RunSteps(want, steps), Claim(c, id)) == RunSteps(want, steps)
  {
    StatusOnlyAdvances(want, steps, n, id);
  }

  // ---- how a row ends ----

  /** A command of the vocabulary, and a known mode if it sets one. */
  predicate WellNamed(name: string, mode: string) {
    && name in {"start", "stop", "set_mode", "halt", "resume", "kill", "flatten", "emergency_kill", "reconcile"}
    && (name == "set_mode" ==> Normalize(mode) in {"signal", "paper", "live"})
  }

  /** Step n applied the command of row `id`: the controller was called with it exactly if it is
      well named, and the verdict is Completed exactly if that call was made and succeeded. */
  ghost predicate Judged(want: string, steps: seq<Step>, n: nat, id: nat, verdict: Status) {
    && n < |steps| && steps[n].Apply?
    && var s, c := RunSteps(want, steps[..n]), steps[n].consumer;
       && c in s.work && s.work[c].Holding? && s.work[c].cmd.id == id
       && var cmd := s.work[c].cmd;
          && RunSteps(want, steps[..n + 1]).calls ==
             (if WellNamed(cmd.name, cmd.mode) then s.calls + [cmd] else s.calls)
          && verdict == if WellNamed(cmd.name, cmd.mode) && steps[n].succeeds then Completed else Rejected
  }

  lemma {:induction false} ClosingOrigin(want: string, steps: seq<Step>, c: nat) returns (n: nat)
    requires c in RunSteps(want, steps).work && RunSteps(want, steps).work[c].Closing?
    ensures Judged(want, steps, n, RunSteps(want, steps).work[c].id, RunSteps(want, steps).work[c].status)
  {
    var init, last := steps[..|steps| - 1], steps[|steps| - 1];
    var s, t := RunSteps(want, init), RunSteps(want, steps);
    if c in s.work && s.work[c] == t.work[c] {
      hide Next, Judged;
      n := ClosingOrigin(want, init, c);
      JudgedLater(want, steps, n, t.work[c].id, t.work[c].status);
    } else {
      hide EnqueueAllowed, Normalize;
      n := |steps| - 1;
      assert steps[..n + 1] == steps;
    }
  }

  lemma JudgedLater(want: string, steps: seq<Step>, n: nat, id: nat, verdict: Status)
    requires steps != [] && Judged(want, steps[..|steps| - 1], n, id, verdict)
    ensures Judged(want, steps, n, id, verdict)
  {
    hide RunSteps, WellNamed;
    var init := steps[..|steps| - 1];
    assert init[..n] == steps[..n] && init[..n + 1] == steps[..n + 1];
  }

  /** Where a final status comes from. Completed: an Apply step on the row's own command called the
      controller and the call succeeded. Rejected: the args were malformed, the command was not
      well named, or the call failed. */
  lemma {:induction false} VerdictMeans(want: string, steps: seq<Step>, id: nat) returns (n: nat)
    requires id in RunSteps(want, steps).rows
    requires RunSteps(want, steps).rows[id].status in {Completed, Rejected}
    ensures var row := RunSteps(want, steps).rows[id];
            Judged(want, steps, n, id, row.status) || (row.status == Rejected && row.args == Malformed)
  {
    var init, last := steps[..|steps| - 1], steps[|steps| - 1];
    var s, t := RunSteps(want, init), RunSteps(want, steps);
    RunKeeps(want, init);
    if id in s.rows && s.rows[id].status == t.rows[id].status {
      StepAdvances(want, s, last, id);
      hide Next, Judged, Inv;
      n := VerdictMeans(want, init, id);
      if Judged(want, init, n, id, t.rows[id].status) { JudgedLater(want, steps, n, id, t.rows[id].status); }
    } else {
      var c := FinishedBy(want, s, last, id);
      n := 0;
      if s.work[c].Closing? {
        hide Next, Judged, Inv;
        n := ClosingOrigin(want, init, c);
        JudgedLater(want, steps, n, id, t.rows[id].status);
      }
    }
  }

  /** Only a stored Finish gives a row a final status: the one its consumer was closing it with,
      or Rejected for malformed args. */
  lemma FinishedBy(want: string, s: State, step: Step, id: nat) returns (c: nat)
    requires Inv(s)
    requires var t := Next(want, s, step);
             && id in t.rows && t.rows[id].status in {Completed, Rejected}
             && (id in s.rows ==> s.rows[id].status != t.rows[id].status)
    ensures c in s.work && id in s.rows
    ensures var t := Next(want, s, step);
            || (s.work[c].Closing? && s.work[c].id == id && s.work[c].status == t.rows[id].status)
            || (s.work[c] == Discarding(id) && t.rows[id].status == Rejected && t.rows[id].args == Malformed)
  {
    hide EnqueueAllowed, Validates, RowOk, Claimed;
    c := 0;
    match step {
      case Finish(d, _) =>
        c := d;
        assert WorkOk(s, s.work[c]);
      case _ =>
    }
  }

  /** The same for the row's own content: the judged command is the row, read when claimed. */
  lemma VerdictIsOnTheRow(want: string, steps: seq<Step>, id: nat) returns (n: nat)
    requires id in RunSteps(want, steps).rows && RunSteps(want, steps).rows[id].status == Completed
    ensures var row := RunSteps(want, steps).rows[id];
            && Judged(want, steps, n, id, Completed) && steps[n].succeeds
            && row.args.Decoded? && row.target == TARGET_LIVE
            && RunSteps(want, steps[..n]).work[steps[n].consumer].cmd == Command(id, row.name, row.args.mode)
            && WellNamed(row.name, row.args.mode)
  {
    n := VerdictMeans(want, steps, id);
    hide RunSteps, Normalize;
    var s, c := RunSteps(want, steps[..n]), steps[n].consumer;
    RunKeeps(want, steps[..n]);
    RunKeeps(want, steps);
    assert WorkOk(s, s.work[c]);
    assert id != 0;
    StatusOnlyAdvances(want, steps, n, id);
  }

  /** An uninterrupted consumer: claim, apply, store. The row ends Completed exactly if the command
      is well named and the call succeeds, and the controller is called exactly if it is. */
  lemma Uninterrupted(want: string, s: State, c: nat, id: nat, succeeds: bool)
    requires c !in s.work && id in s.rows && s.rows[id].target == TARGET_LIVE && s.rows[id].status == Pending
    ensures var claimed := Next(want, s, Claim(c, id));
            var row := s.rows[id];
            match row.args
            case Malformed =>
              var t := Next(want, claimed, Finish(c, true));
              t.rows[id] == row.(status := Rejected) && t.calls == s.calls
            case Decoded(mode) =>
              var t := Next(want, Next(want, claimed, Apply(c, succeeds)), Finish(c, true));
              && t.rows[id] == row.(status := if WellNamed(row.name, mode) && succeeds then Completed else Rejected)
              && t.calls == (if WellNamed(row.name, mode) then s.calls + [Command(id, row.name, mode)] else s.calls)
              && c !in t.work
              && forall j :: j != id ==> (j in t.rows <==> j in s.rows) && (j in t.rows ==> t.rows[j] == s.rows[j])
  {
    hide Normalize, EnqueueAllowed;
  }

  /** A claim takes effect exactly on a pending live row, by an idle consumer: the row is
      acknowledged, no other row or consumer changes, and the consumer has the row's command, or the
      row to discard if its args cannot be decoded. */
  lemma ClaimMeans(want: string, s: State, c: nat, id: nat)
    ensures var t := Next(want, s, Claim(c, id));
            if c !in s.work && id in s.rows && s.rows[id].target == "live" && s.rows[id].status == Pending then
              && t.rows == s.rows[id := s.rows[id].(status := Acknowledged)] && t.calls == s.calls
              && t.nextID == s.nextID && t.work.Keys == s.work.Keys + {c}
              && (forall d :: d in s.work ==> t.work[d] == s.work[d])
              && t.work[c] == match s.rows[id].args
                              case Malformed => Discarding(id)
                              case Decoded(mode) => Holding(Command(id, s.rows[id].name, mode))
            else t == s
  {
  }

  /** A crash loses what the consumer was doing and nothing else; an update that is not stored leaves
      every row as it was. */
  lemma LossesAreLocal(want: string, s: State, c: nat)
    ensures var t := Next(want, s, Crash(c));
            && t.rows == s.rows && t.calls == s.calls && t.nextID == s.nextID && c !in t.work
            && forall d :: d != c ==> (d in t.work <==> d in s.work) && (d in t.work ==> t.work[d] == s.work[d])
    ensures var t := Next(want, s, Finish(c, false));
            t.rows == s.rows && t.calls == s.calls && t.nextID == s.nextID
  {
  }

  /** What Enqueue inserts, and when: a well-named command, by somebody, with an accepted token if
      it flattens, kills or switches to paper or live. */
  lemma EnqueueIff(want: string, s: State, p: Params)
    ensures var t := Next(want, s, Enqueue(p));
            var privileged := || p.name in {"flatten", "emergency_kill"}
                              || (p.name == "set_mode" && Normalize(p.mode) in {"paper", "live"});
            var accepted := if want != "" then TrimSpace(p.token) == want else TrimSpace(p.token) != "";
            if WellNamed(p.name, p.mode) && TrimSpace(p.requestedBy) != "" && (privileged ==> accepted)
            then t == s.(rows := s.rows[s.nextID := Row("live", p.name, Decoded(p.mode), Pending)], nextID := s.nextID + 1)
            else t == s
  {
    hide Normalize, TrimSpace;
  }

  /** Every spelling of a lower-case word in upper and lower case, with blanks around it, is
      normalized to the word. */
  lemma NormalizeSpellings(a: string, s: string, b: string, w: string)
    requires Blank(a) && Blank(b) && w != "" && |s| == |w|
    requires forall i :: 0 <= i < |w| ==> 'a' <= w[i] <= 'z' && (s[i] == w[i] || s[i] == w[i] - 'a' + 'A')
    ensures Normalize(a + s + b) == w
  {
    TrimBoth(a, s, b);
  }
}

/**
 One ARM PATCH and the wait for its long-running operation (bizpulse/scripts/azure_arm_lro.py).
 */
module ArmOperation {
  import opened Wrappers
  import opened Clock

  // ---- Data ----

  datatype Code = PatchUnconfirmed | OperationFailed

  /** A payload member: absent, a string, or a value of another type. */
  datatype Member = Absent | Text(text: string) | OtherValue

  /** The Retry-After header: none, a decimal text, or any other text. */
  datatype RetryAfter = NoHeader | Decimal(seconds: nat) | NotDecimal

  datatype Response = Response(status: int, retryAfter: RetryAfter, id: Member, provisioning: Member)

  /** A request answered, answered malformed or raising, or raising the module's own exception. */
  datatype Reply = Answer(response: Response) | NoAnswer | Raises(code: Code)

  datatype Request = Patch(url: string) | Get(url: string)

  /** What the world answers around the PATCH. */
  datatype Opening = Opening(
    started: Reading, reply: Reply, answered: Reading, beforeSleep: Reading, sleeps: bool)

  /** What the world answers around one GET. */
  datatype Turn = Turn(before: Reading, reply: Reply, answered: Reading, beforeSleep: Reading, sleeps: bool)

  datatype Outcome = Completed | Refused(code: Code)

  /** Abstract text operations: casefold, and the syntax of an application resource id. */
  datatype Syntax = Syntax(fold: string -> string, appId: string -> bool)

  const BUDGET := 300.0
  const DEFAULT_DELAY := 5
  const MAX_RETRY_AFTER := 15

  function Url(appId: string): string {
    "https://management.azure.com" + appId + "?api-version=2025-01-01"
  }

  // ---- One response ----

  function Delay(r: Response): (d: Result<int, Code>)
    ensures d.Ok? ==> 1 <= d.value <= MAX_RETRY_AFTER
  {
    match r.retryAfter
    case NoHeader => Ok(DEFAULT_DELAY)
    case NotDecimal => Err(PatchUnconfirmed)
    case Decimal(n) => if 1 <= n <= MAX_RETRY_AFTER then Ok(n) else Err(PatchUnconfirmed)
  }

  function Elapsed(started: real, now: Reading): (e: Result<real, Code>)
    ensures e.Ok? ==> e.value >= 0.0
  {
    if now.Unusable? || now.at < started then Err(PatchUnconfirmed) else Ok(now.at - started)
  }

  predicate SameId(sx: Syntax, id: Member, appId: string) {
    id.Text? && sx.fold(id.text) == sx.fold(appId)
  }

  datatype ResourceState = StillRunning | SucceededState | Rejected(code: Code)

  function StateOf(sx: Syntax, r: Response, appId: string): ResourceState {
    if r.status == 202 then StillRunning
    else if r.status != 200 || !SameId(sx, r.id, appId) || !r.provisioning.Text? then Rejected(PatchUnconfirmed)
    else
      var state := sx.fold(r.provisioning.text);
      if state == "succeeded" then SucceededState
      else if state in ["accepted", "creating", "inprogress", "running", "updating"] then StillRunning
      else if state in ["failed", "canceled", "cancelled"] then Rejected(OperationFailed)
      else Rejected(PatchUnconfirmed)
  }

  // ---- The operation as a sequence of turns ----

  /** Where the operation stands; `Asleep` carries the delay just slept. */
  datatype Status = Asleep(delay: int) | Ended(outcome: Outcome)

  predicate WithinBudget(started: real, beforeSleep: Reading, delay: int) {
    1 <= delay <= MAX_RETRY_AFTER && beforeSleep.Seconds? &&
    beforeSleep.at - started + delay as real <= BUDGET
  }

  function SleepAfter(started: real, r: Response, beforeSleep: Reading, sleeps: bool): (s: Status)
    ensures s.Asleep? ==> WithinBudget(started, beforeSleep, s.delay)
  {
    match Delay(r)
    case Err(code) => Ended(Refused(code))
    case Ok(delay) =>
      match Elapsed(started, beforeSleep)
      case Err(code) => Ended(Refused(code))
      case Ok(e) =>
        if e + delay as real > BUDGET || !sleeps then Ended(Refused(PatchUnconfirmed)) else Asleep(delay)
  }

  function AfterPatch(sx: Syntax, appId: string, o: Opening): (s: Status)
    requires o.started.Seconds?
    ensures s.Asleep? ==> WithinBudget(o.started.at, o.beforeSleep, s.delay)
  {
    match o.reply
    case NoAnswer => Ended(Refused(PatchUnconfirmed))
    case Raises(code) => Ended(Refused(code))
    case Answer(r) =>
      var e := Elapsed(o.started.at, o.answered);
      if e.Err? || e.value > BUDGET then Ended(Refused(PatchUnconfirmed))
      else if r.status == 200 || r.status == 201 then
        Ended(if SameId(sx, r.id, appId) then Completed else Refused(PatchUnconfirmed))
      else if r.status != 202 || !(r.id.Absent? || SameId(sx, r.id, appId)) then
        Ended(Refused(PatchUnconfirmed))
      else SleepAfter(o.started.at, r, o.beforeSleep, o.sleeps)
  }

  function AfterTurn(sx: Syntax, appId: string, started: real, t: Turn): (s: Status)
    ensures s.Asleep? ==> t.before.Seconds? && WithinBudget(started, t.beforeSleep, s.delay)
  {
    var begun := Elapsed(started, t.before);
    if begun.Err? || begun.value >= BUDGET then Ended(Refused(PatchUnconfirmed))
    else
      match t.reply
      case NoAnswer => Ended(Refused(PatchUnconfirmed))
      case Raises(code) => Ended(Refused(code))
      case Answer(r) =>
        var e := Elapsed(started, t.answered);
        if e.Err? || e.value > BUDGET then Ended(Refused(PatchUnconfirmed))
        else
          match StateOf(sx, r, appId)
          case SucceededState => Ended(Completed)
          case Rejected(code) => Ended(Refused(code))
          case StillRunning => SleepAfter(started, r, t.beforeSleep, t.sleeps)
  }

  /** Whether a turn gets as far as sending its GET. */
  predicate SendsGet(started: real, t: Turn) {
    Elapsed(started, t.before).Ok? && Elapsed(started, t.before).value < BUDGET
  }

  function LastReading(o: Opening, turns: nat -> Turn, n: nat): Reading {
    if n == 0 then o.beforeSleep else turns(n - 1).beforeSleep
  }

  /** The status after the PATCH and `n` turns; an ended operation stays ended. */
  function After(sx: Syntax, appId: string, o: Opening, turns: nat -> Turn, n: nat): (s: Status)
    requires o.started.Seconds?
    ensures s.Asleep? ==> WithinBudget(o.started.at, LastReading(o, turns, n), s.delay)
  {
    if n == 0 then AfterPatch(sx, appId, o)
    else
      var s := After(sx, appId, o, turns, n - 1);
      if s.Ended? then s else AfterTurn(sx, appId, o.started.at, turns(n - 1))
  }

  /** The requests sent in the PATCH and `n` turns. */
  function Requests(sx: Syntax, appId: string, o: Opening, turns: nat -> Turn, n: nat): seq<Request>
    requires o.started.Seconds?
  {
    if n == 0 then [Patch(Url(appId))]
    else
      Requests(sx, appId, o, turns, n - 1) +
      if After(sx, appId, o, turns, n - 1).Asleep? && SendsGet(o.started.at, turns(n - 1))
      then [Get(Url(appId))] else []
  }

  /** The seconds slept in the PATCH phase and `n` turns. */
  function Slept(sx: Syntax, appId: string, o: Opening, turns: nat -> Turn, n: nat): int
    requires o.started.Seconds?
  {
    (if n == 0 then 0 else Slept(sx, appId, o, turns, n - 1)) +
    if (n == 0 || After(sx, appId, o, turns, n - 1).Asleep?) && After(sx, appId, o, turns, n).Asleep?
    then After(sx, appId, o, turns, n).delay else 0
  }

  /** A clock that never runs backwards and advances at least by what is slept. */
  ghost predicate Advances(sx: Syntax, appId: string, o: Opening, turns: nat -> Turn)
    requires o.started.Seconds?
  {
    forall n: nat :: AdvancesOver(sx, appId, o, turns, n)
  }

  predicate AdvancesOver(sx: Syntax, appId: string, o: Opening, turns: nat -> Turn, n: nat)
    requires o.started.Seconds?
  {
    var s, t := After(sx, appId, o, turns, n), turns(n);
    Ordered(t.before, t.beforeSleep) &&
    (s.Asleep? && t.before.Seconds? ==> t.before.at >= LastReading(o, turns, n).at + s.delay as real)
  }

  predicate Ordered(a: Reading, b: Reading) {
    a.Seconds? && b.Seconds? ==> a.at <= b.at
  }

  // ---- Laws ----

  /** The first request is the PATCH, the only one; all others are GETs of the same URL. */
  lemma {:induction false} OnePatch(sx: Syntax, appId: string, o: Opening, turns: nat -> Turn, n: nat)
    requires o.started.Seconds?
    ensures var log := Requests(sx, appId, o, turns, n);
      var url := "https://management.azure.com" + appId + "?api-version=2025-01-01";
      1 <= |log| <= n + 1 && log[0] == Patch(url) && forall i | 1 <= i < |log| :: log[i] == Get(url)
  {
    if n > 0 { OnePatch(sx, appId, o, turns, n - 1); }
  }

  /** A reading that is usable, no earlier than the start, and within the budget. */
  predicate InBudget(started: real, now: Reading) {
    now.Seconds? && started <= now.at <= started + BUDGET
  }

  /** The same, with time left: a turn that begins then sends its GET. */
  predicate BeginsInTime(started: real, now: Reading) {
    now.Seconds? && started <= now.at < started + BUDGET
  }

  lemma ReadingsAre(started: real, now: Reading)
    ensures InBudget(started, now) <==> Elapsed(started, now).Ok? && Elapsed(started, now).value <= BUDGET
    ensures Elapsed(started, now).Ok? <==> now.Seconds? && started <= now.at
    ensures Elapsed(started, now).Ok? ==> Elapsed(started, now) == Ok(now.at - started)
  {
  }

  lemma SendsExactly(started: real, t: Turn)
    ensures SendsGet(started, t) <==> BeginsInTime(started, t.before)
  {
  }

  /** The response names the application, up to case. */
  predicate Names(sx: Syntax, r: Response, appId: string) {
    r.id.Text? && sx.fold(r.id.text) == sx.fold(appId)
  }

  /** A 200 that names the application and gives its provisioning state. */
  predicate Reports(sx: Syntax, r: Response, appId: string, states: seq<string>) {
    r.status == 200 && Names(sx, r, appId) && r.provisioning.Text? && sx.fold(r.provisioning.text) in states
  }

  /** A turn whose GET goes out and is answered in time. */
  predicate Answered(started: real, t: Turn) {
    BeginsInTime(started, t.before) && t.reply.Answer? && InBudget(started, t.answered)
  }

  /** A turn whose GET proves the operation done. */
  predicate TurnCompletes(sx: Syntax, appId: string, started: real, t: Turn) {
    Answered(started, t) && Reports(sx, t.reply.response, appId, ["succeeded"])
  }

  /** A turn in which the operation is reported failed or canceled, or the request itself reports it. */
  predicate TurnFails(sx: Syntax, appId: string, started: real, t: Turn) {
    BeginsInTime(started, t.before) &&
    (t.reply == Raises(OperationFailed) ||
     (Answered(started, t) && Reports(sx, t.reply.response, appId, ["failed", "canceled", "cancelled"])))
  }

  /** A PATCH response that settles the operation at once. */
  predicate PatchCompletes(sx: Syntax, appId: string, o: Opening)
    requires o.started.Seconds?
  {
    InBudget(o.started.at, o.answered) && o.reply.Answer? && o.reply.response.status in [200, 201] &&
    Names(sx, o.reply.response, appId)
  }

  predicate CompletesAt(sx: Syntax, appId: string, o: Opening, turns: nat -> Turn, k: nat)
    requires o.started.Seconds?
  {
    After(sx, appId, o, turns, k).Asleep? && TurnCompletes(sx, appId, o.started.at, turns(k))
  }

  /**
   The wait completes exactly on a 200 or 201 PATCH response bearing the application's id, or on a
   succeeded GET bearing it that was reached through turns that all went back to sleep.
   */
  lemma {:induction false} CompletesExactly(sx: Syntax, appId: string, o: Opening, turns: nat -> Turn, n: nat)
    requires o.started.Seconds?
    ensures After(sx, appId, o, turns, n) == Ended(Completed) <==>
      PatchCompletes(sx, appId, o) || exists k | 0 <= k < n :: CompletesAt(sx, appId, o, turns, k)
  {
    if n > 0 {
      CompletesExactly(sx, appId, o, turns, n - 1);
      TurnCompletesExactly(sx, appId, o.started.at, turns(n - 1));
      assert CompletesAt(sx, appId, o, turns, n - 1) <==>
        After(sx, appId, o, turns, n - 1).Asleep? && TurnCompletes(sx, appId, o.started.at, turns(n - 1));
    }
  }

  lemma TurnCompletesExactly(sx: Syntax, appId: string, started: real, t: Turn)
    ensures AfterTurn(sx, appId, started, t) == Ended(Completed) <==> TurnCompletes(sx, appId, started, t)
  {
  }

  /** Under an advancing clock, what has been slept is time that has passed, at least a second a turn. */
  lemma {:induction false} SleptIsElapsed(sx: Syntax, appId: string, o: Opening, turns: nat -> Turn, n: nat)
    requires o.started.Seconds? && Advances(sx, appId, o, turns)
    requires After(sx, appId, o, turns, n).Asleep?
    ensures n + 1 <= Slept(sx, appId, o, turns, n)
    ensures Slept(sx, appId, o, turns, n) as real <=
            LastReading(o, turns, n).at - o.started.at + After(sx, appId, o, turns, n).delay as real
  {
    if n > 0 {
      SleptIsElapsed(sx, appId, o, turns, n - 1);
      assert AdvancesOver(sx, appId, o, turns, n - 1);
    }
  }

  /** A turn that sends its GET is one of the first 299. */
  lemma GetsAreBounded(sx: Syntax, appId: string, o: Opening, turns: nat -> Turn, n: nat)
    requires o.started.Seconds? && Advances(sx, appId, o, turns)
    requires After(sx, appId, o, turns, n).Asleep? && SendsGet(o.started.at, turns(n))
    ensures n < 299
  {
    SleptIsElapsed(sx, appId, o, turns, n);
    assert AdvancesOver(sx, appId, o, turns, n);
  }

  /** However many turns are looked at: at most 299 GETs, and at most 300 seconds slept. */
  lemma {:induction false} RunIsBounded(sx: Syntax, appId: string, o: Opening, turns: nat -> Turn, n: nat)
    requires o.started.Seconds? && Advances(sx, appId, o, turns)
    ensures |Requests(sx, appId, o, turns, n)| <= n + 1 && |Requests(sx, appId, o, turns, n)| <= 300
    ensures 0 <= Slept(sx, appId, o, turns, n) <= 300
  {
    hide AfterPatch, AfterTurn, Url;
    if After(sx, appId, o, turns, n).Asleep? { SleptIsElapsed(sx, appId, o, turns, n); }
    if n > 0 {
      RunIsBounded(sx, appId, o, turns, n - 1);
      if After(sx, appId, o, turns, n - 1).Asleep? && SendsGet(o.started.at, turns(n - 1)) {
        GetsAreBounded(sx, appId, o, turns, n - 1);
      }
    }
  }

  lemma TurnFailsExactly(sx: Syntax, appId: string, started: real, t: Turn)
    ensures AfterTurn(sx, appId, started, t) == Ended(Refused(OperationFailed)) <==> TurnFails(sx, appId, started, t)
  {
  }

  predicate FailsAt(sx: Syntax, appId: string, o: Opening, turns: nat -> Turn, k: nat)
    requires o.started.Seconds?
  {
    After(sx, appId, o, turns, k).Asleep? && TurnFails(sx, appId, o.started.at, turns(k))
  }

  /**
   The wait ends with a failed operation exactly when the PATCH request says so, or a GET reached through
   turns that all went back to sleep does, or reports a failed or canceled state.
   */
  lemma {:induction false} FailsExactly(sx: Syntax, appId: string, o: Opening, turns: nat -> Turn, n: nat)
    requires o.started.Seconds?
    ensures After(sx, appId, o, turns, n) == Ended(Refused(OperationFailed)) <==>
      o.reply == Raises(OperationFailed) || exists k | 0 <= k < n :: FailsAt(sx, appId, o, turns, k)
  {
    hide TurnFails, AfterTurn;
    if n > 0 {
      FailsExactly(sx, appId, o, turns, n - 1);
      TurnFailsExactly(sx, appId, o.started.at, turns(n - 1));
      assert FailsAt(sx, appId, o, turns, n - 1) <==>
        After(sx, appId, o, turns, n - 1).Asleep? && TurnFails(sx, appId, o.started.at, turns(n - 1));
    }
  }

  // ---- When the wait ends ----

  /** The delay a response asks for: five seconds without a header, one to fifteen seconds with one. */
  predicate AsksFor(r: Response, delay: int) {
    (r.retryAfter == NoHeader && delay == 5) ||
    (r.retryAfter.Decimal? && delay == r.retryAfter.seconds && 1 <= delay <= 15)
  }

  lemma DelayExactly(r: Response, delay: int)
    ensures Delay(r) == Ok(delay) <==> AsksFor(r, delay)
  {
  }

  /** A delay is asked for, it still fits the budget when it begins, and the sleep works. */
  predicate Sleeps(started: real, r: Response, beforeSleep: Reading, sleeps: bool) {
    sleeps && beforeSleep.Seconds? && started <= beforeSleep.at &&
    exists delay | 1 <= delay <= 15 :: AsksFor(r, delay) && beforeSleep.at + delay as real <= started + BUDGET
  }

  /** The PATCH is answered in time by a 202, of this application if it says, and the first sleep works. */
  predicate OpensRunning(sx: Syntax, appId: string, o: Opening)
    requires o.started.Seconds?
  {
    o.reply.Answer? && InBudget(o.started.at, o.answered) &&
    var r := o.reply.response;
    r.status == 202 && (r.id.Absent? || Names(sx, r, appId)) && Sleeps(o.started.at, r, o.beforeSleep, o.sleeps)
  }

  const RUNNING_STATES := ["accepted", "creating", "inprogress", "running", "updating"]

  /** The GET goes out, is answered in time that the operation still runs, and the next sleep works. */
  predicate KeepsRunning(sx: Syntax, appId: string, started: real, t: Turn) {
    Answered(started, t) &&
    (t.reply.response.status == 202 || Reports(sx, t.reply.response, appId, RUNNING_STATES)) &&
    Sleeps(started, t.reply.response, t.beforeSleep, t.sleeps)
  }

  lemma SleepsExactly(started: real, r: Response, beforeSleep: Reading, sleeps: bool)
    ensures SleepAfter(started, r, beforeSleep, sleeps).Asleep? <==> Sleeps(started, r, beforeSleep, sleeps)
    ensures SleepAfter(started, r, beforeSleep, sleeps).Asleep? ==>
      AsksFor(r, SleepAfter(started, r, beforeSleep, sleeps).delay)
  {
    var s := SleepAfter(started, r, beforeSleep, sleeps);
    if s.Asleep? {
      DelayExactly(r, s.delay);
      assert AsksFor(r, s.delay);
    }
    if Sleeps(started, r, beforeSleep, sleeps) {
      var delay :| 1 <= delay <= 15 && AsksFor(r, delay) && beforeSleep.at + delay as real <= started + BUDGET;
      DelayExactly(r, delay);
    }
  }

  lemma OpensExactly(sx: Syntax, appId: string, o: Opening)
    requires o.started.Seconds?
    ensures AfterPatch(sx, appId, o).Asleep? <==> OpensRunning(sx, appId, o)
  {
    hide SleepAfter, Sleeps;
    if o.reply.Answer? { SleepsExactly(o.started.at, o.reply.response, o.beforeSleep, o.sleeps); }
  }

  lemma KeepsExactly(sx: Syntax, appId: string, started: real, t: Turn)
    ensures AfterTurn(sx, appId, started, t).Asleep? <==> KeepsRunning(sx, appId, started, t)
  {
    hide SleepAfter, Sleeps;
    if t.reply.Answer? { SleepsExactly(started, t.reply.response, t.beforeSleep, t.sleeps); }
  }

  /** The wait goes on for exactly as long as the opening and every turn say that the operation runs. */
  lemma {:induction false} AsleepExactly(sx: Syntax, appId: string, o: Opening, turns: nat -> Turn, n: nat)
    requires o.started.Seconds?
    ensures After(sx, appId, o, turns, n).Asleep? <==>
      OpensRunning(sx, appId, o) && forall k | 0 <= k < n :: KeepsRunning(sx, appId, o.started.at, turns(k))
  {
    hide AfterPatch, AfterTurn, OpensRunning, KeepsRunning;
    if n == 0 {
      OpensExactly(sx, appId, o);
    } else {
      AsleepExactly(sx, appId, o, turns, n - 1);
      KeepsExactly(sx, appId, o.started.at, turns(n - 1));
    }
  }

  /** The opening or some turn is not of the kind that keeps the wait going. */
  ghost predicate Ends(sx: Syntax, appId: string, o: Opening, turns: nat -> Turn)
    requires o.started.Seconds?
  {
    !OpensRunning(sx, appId, o) || exists k: nat :: !KeepsRunning(sx, appId, o.started.at, turns(k))
  }

  /** The wait is over at some time if and only if it meets such an opening or turn. */
  lemma EndsExactly(sx: Syntax, appId: string, o: Opening, turns: nat -> Turn)
    requires o.started.Seconds?
    ensures (exists n: nat :: After(sx, appId, o, turns, n).Ended?) <==> Ends(sx, appId, o, turns)
  {
    hide After, OpensRunning, KeepsRunning;
    if n: nat :| After(sx, appId, o, turns, n).Ended? { AsleepExactly(sx, appId, o, turns, n); }
    if !OpensRunning(sx, appId, o) {
      AsleepExactly(sx, appId, o, turns, 0);
      assert After(sx, appId, o, turns, 0).Ended?;
    } else if k: nat :| !KeepsRunning(sx, appId, o.started.at, turns(k)) {
      AsleepExactly(sx, appId, o, turns, k + 1);
      assert After(sx, appId, o, turns, k + 1).Ended?;
    }
  }

  /** Any clock that once fails, runs behind the start, or has passed the budget when a turn begins ends the wait. */
  lemma BadReadingEnds(sx: Syntax, appId: string, o: Opening, turns: nat -> Turn, n: nat)
    requires o.started.Seconds?
    requires var b := turns(n).before; b.Unusable? || b.at < o.started.at || b.at >= o.started.at + BUDGET
    ensures Ends(sx, appId, o, turns) && After(sx, appId, o, turns, n + 1).Ended?
  {
    assert !KeepsRunning(sx, appId, o.started.at, turns(n));
  }

  /** A clock that advances by what is slept ends the wait within 300 turns. */
  lemma AdvancingClockEnds(sx: Syntax, appId: string, o: Opening, turns: nat -> Turn)
    requires o.started.Seconds? && Advances(sx, appId, o, turns)
    ensures Ends(sx, appId, o, turns) && After(sx, appId, o, turns, 300).Ended?
  {
    hide Advances, OpensRunning, StateOf, After;
    AsleepExactly(sx, appId, o, turns, 299);
    AsleepExactly(sx, appId, o, turns, 300);
    if After(sx, appId, o, turns, 299).Asleep? && SendsGet(o.started.at, turns(299)) {
      GetsAreBounded(sx, appId, o, turns, 299);
    }
  }

  /** Waiting answers under a clock that stands still: an input for which the wait never ends. */
  lemma StillClockWaitsForever(sx: Syntax, appId: string)
    ensures var running := Answer(Response(202, NoHeader, Absent, Absent));
      var o := Opening(Seconds(0.0), running, Seconds(0.0), Seconds(0.0), true);
      var turns := (_: nat) => Turn(Seconds(0.0), running, Seconds(0.0), Seconds(0.0), true);
      !Ends(sx, appId, o, turns) && forall n: nat :: After(sx, appId, o, turns, n) == Asleep(DEFAULT_DELAY)
  {
    var running := Answer(Response(202, NoHeader, Absent, Absent));
    var o := Opening(Seconds(0.0), running, Seconds(0.0), Seconds(0.0), true);
    var turns := (_: nat) => Turn(Seconds(0.0), running, Seconds(0.0), Seconds(0.0), true);
    forall n: nat
      ensures After(sx, appId, o, turns, n) == Asleep(DEFAULT_DELAY)
    {
      StillAsleep(sx, appId, o, turns, n);
    }
    EndsExactly(sx, appId, o, turns);
  }

  lemma {:induction false} StillAsleep(sx: Syntax, appId: string, o: Opening, turns: nat -> Turn, n: nat)
    requires var running := Answer(Response(202, NoHeader, Absent, Absent));
      o == Opening(Seconds(0.0), running, Seconds(0.0), Seconds(0.0), true) &&
      forall k :: turns(k) == Turn(Seconds(0.0), running, Seconds(0.0), Seconds(0.0), true)
    ensures After(sx, appId, o, turns, n) == Asleep(DEFAULT_DELAY)
  {
    if n > 0 { StillAsleep(sx, appId, o, turns, n - 1); }
  }

  // ---- The loop ----

  /**
   Everything a run did: its outcome, its requests in order, the seconds it slept, and its turns. It asks
   only that the wait has an end, without which the source does not return either.
   */
  method WaitForArmPatch(sx: Syntax, appId: string, o: Opening, turns: nat -> Turn)
    returns (outcome: Outcome, requests: seq<Request>, slept: int, n: nat)
    requires sx.appId(appId) && o.started.Seconds? ==> Ends(sx, appId, o, turns)
    ensures !sx.appId(appId) || o.started.Unusable? ==>
      outcome == Refused(PatchUnconfirmed) && requests == [] && slept == 0
    ensures sx.appId(appId) && o.started.Seconds? ==>
      After(sx, appId, o, turns, n) == Ended(outcome) && (n > 0 ==> After(sx, appId, o, turns, n - 1).Asleep?) &&
      requests == Requests(sx, appId, o, turns, n) && slept == Slept(sx, appId, o, turns, n)
    ensures o.started.Seconds? && Advances(sx, appId, o, turns) ==> |requests| <= 300 && 0 <= slept <= 300
  {
    hide AfterPatch, AfterTurn, StateOf, SleepAfter, Url, Advances, OpensRunning, KeepsRunning;
    requests, slept, n := [], 0, 0;
    if !sx.appId(appId) || o.started.Unusable? { outcome := Refused(PatchUnconfirmed); return; }
    EndsExactly(sx, appId, o, turns);
    ghost var last: nat :| After(sx, appId, o, turns, last).Ended?;
    requests := [Patch(Url(appId))];
    var status := AfterPatch(sx, appId, o);
    if status.Asleep? { slept := status.delay; }
    while status.Asleep?
      invariant status == After(sx, appId, o, turns, n)
      invariant n > 0 ==> After(sx, appId, o, turns, n - 1).Asleep?
      invariant requests == Requests(sx, appId, o, turns, n)
      invariant slept == Slept(sx, appId, o, turns, n)
      decreases last - n
    {
      AsleepExactly(sx, appId, o, turns, n);
      AsleepExactly(sx, appId, o, turns, last);
      var turn := turns(n);
      requests, status := NextTurn(sx, appId, o.started.at, turn, requests);
      if status.Asleep? { slept := slept + status.delay; }
      n := n + 1;
    }
    if Advances(sx, appId, o, turns) { RunIsBounded(sx, appId, o, turns, n); }
    outcome := status.outcome;
  }

  /** The body of the loop: a GET, unless the budget is spent. */
  method NextTurn(sx: Syntax, appId: string, started: real, turn: Turn, sent: seq<Request>)
    returns (requests: seq<Request>, status: Status)
    ensures status == AfterTurn(sx, appId, started, turn)
    ensures requests == sent + if SendsGet(started, turn) then [Get(Url(appId))] else []
  {
    hide StateOf, SleepAfter, Url;
    requests := sent;
    var begun := Elapsed(started, turn.before);
    if begun.Err? || begun.value >= BUDGET { return requests, Ended(Refused(PatchUnconfirmed)); }
    requests := requests + [Get(Url(appId))];
    status := AfterTurn(sx, appId, started, turn);
  }
}

/** The severe-weather shutdown sequencer of nwsshutdown/core.py as functions on its
    state: the cog-wide `shutdown_pending` flag and the handle of the countdown task.
    Every operation yields the new state and the effects it produced, in order:
    messages sent, the countdown task being created, and the final shutdown.
    The class in NwsCog runs the same steps in place and is proved equal to these. */
module NwsSequencer {
  import opened Common
  import opened NwsConfig
  import opened NwsFilter
  import opened NwsEmbeds

  /** Number of countdown rounds. */
  const Rounds: nat := 5

  /** `shutdown_timer_task`: none yet, a running task, a running task that has been asked
      to cancel (it raises at its next suspension point), or a finished task. */
  datatype TaskHandle = NoTask | Active | CancelRequested | Done

  datatype SeqState = SeqState(pending: bool, task: TaskHandle)

  datatype Effect =
    | AdminAlert(alert: Alert)                 // the alert embed sent to the admin
    | AdminNotice(minutes: nat, admin: string)   // one countdown round's direct message
    | ChannelAnnouncement(alert: Alert)        // the shutdown notice in the channel
    | CommandReply(answer: Decision)           // the reply to a `shutdown` command
    | TimerStarted(guild: GuildId, alert: Alert)         // `create_task(start_shutdown_timer(...))`
    | ShutdownTriggered                                  // the terminal action

  datatype Step = Step(state: SeqState, effects: seq<Effect>)

  /*************************** the `shutdown` command ***************************/

  datatype Decision = Cancel | Confirm | Unrecognised

  /** The command compares the lower-cased argument with "no" and "yes". */
  function Decide(decision: string): (r: Decision)
    ensures r == Cancel <==> Lower(decision) == "no"
    ensures r == Confirm <==> Lower(decision) == "yes"
  {
    var d := Lower(decision);
    if d == "no" then Cancel else if d == "yes" then Confirm else Unrecognised
  }

  /** The decision does not depend on letter case. */
  lemma DecideIgnoresCase(decision: string)
    ensures Decide(Lower(decision)) == Decide(decision)
  {
    LowerIdempotent(decision);
  }

  /** The text of the reply to a `shutdown` command. */
  function ReplyText(d: Decision): string
  {
    match d
    case Cancel => "Shutdown has been cancelled."
    case Confirm => "Shutdown confirmed. Server will be shut down in 5 minutes."
    case Unrecognised => "Please use `!shutdown yes` or `!shutdown no`."
  }

  /** `task.cancel()`: only a running task takes note; a finished one ignores it. */
  function CancelTask(t: TaskHandle): TaskHandle
  {
    if t == Active then CancelRequested else t
  }

  /** What `shutdown` does once its argument is classified: "no" clears the flag and
      cancels the stored task whatever the state, "yes" only acknowledges, anything
      else gets the usage text; each gets exactly one reply. */
  function Decided(s: SeqState, d: Decision): (r: Step)
    ensures r.effects == [CommandReply(d)]
    ensures d == Cancel ==> !r.state.pending && r.state.task == CancelTask(s.task)
    ensures d != Cancel ==> r.state == s
  {
    if d == Cancel then Step(SeqState(false, CancelTask(s.task)), [CommandReply(d)])
    else Step(s, [CommandReply(d)])
  }

  /** `shutdown <decision>`. */
  function ShutdownCommand(s: SeqState, decision: string): (r: Step)
    ensures r.effects == [CommandReply(Decide(decision))]
    ensures Lower(decision) == "no" ==> r.state == SeqState(false, CancelTask(s.task))
    ensures Lower(decision) != "no" ==> r.state == s
  {
    Decided(s, Decide(decision))
  }

  /** Cancelling twice leaves the same state as cancelling once, and the second call
      still answers "cancelled". */
  lemma CancelIdempotent(s: SeqState, decision: string)
    requires Decide(decision) == Cancel
    ensures var once := ShutdownCommand(s, decision);
      ShutdownCommand(once.state, decision) == once
  {
  }

  /*************************** `handle_alert` ***************************/

  /** `handle_alert`: with no admin it clears the flag and stops; otherwise it sends the
      alert embed (a failed send is ignored) and creates the countdown task. */
  function HandleAlert(s: SeqState, g: GuildId, a: Alert, adminResolves: bool, dmDelivered: bool): (r: Step)
    ensures r.state.pending ==> s.pending
    ensures !adminResolves ==> r.state == SeqState(false, s.task) && r.effects == []
    ensures adminResolves ==>
      && r.state == SeqState(s.pending, Active)
      && |r.effects| >= 1 && r.effects[|r.effects| - 1] == TimerStarted(g, a)
      && r.effects[..|r.effects| - 1] == (if dmDelivered then [AdminAlert(a)] else [])
  {
    if !adminResolves then Step(s.(pending := false), [])
    else
      var dm := if dmDelivered then [AdminAlert(a)] else [];
      Step(s.(task := Active), dm + [TimerStarted(g, a)])
  }

  /** The two points where `handle_alert` waits: the read of the admin setting and
      the send of the alert embed (the latter only once an admin was found). */
  datatype AlertPoint = ConfigRead | AlertSend

  /** `handle_alert` with the `shutdown` commands that run while it waits at each point
      (the embed is logged once its send completes). A "no" there clears the flag and
      cancels the previous task handle, but the new task is still created afterwards. */
  function HandleAlertAt(s: SeqState, g: GuildId, a: Alert, adminResolves: bool, dmDelivered: bool,
                         cmds: map<AlertPoint, Decision>): (r: Step)
    ensures cmds == map[] ==> r == HandleAlert(s, g, a, adminResolves, dmDelivered)
  {
    var c0 := if ConfigRead in cmds then Decided(s, cmds[ConfigRead]) else Step(s, []);
    if !adminResolves then Step(c0.state.(pending := false), c0.effects)
    else
      var c1 := if AlertSend in cmds then Decided(c0.state, cmds[AlertSend]) else Step(c0.state, []);
      var dm := if dmDelivered then [AdminAlert(a)] else [];
      Step(c1.state.(task := Active), c0.effects + c1.effects + dm + [TimerStarted(g, a)])
  }

  /** A "no" while `handle_alert` waits is answered "cancelled", yet the countdown task
      is created after it: the task runs with the flag down. */
  lemma CancelInHandleAlertStillStarts(s: SeqState, g: GuildId, a: Alert, dmDelivered: bool,
                                       cmds: map<AlertPoint, Decision>, p: AlertPoint)
    requires p in cmds && cmds[p] == Cancel
    ensures var r := HandleAlertAt(s, g, a, true, dmDelivered, cmds);
      && r.state == SeqState(false, Active)
      && CommandReply(Cancel) in r.effects
      && r.effects[|r.effects| - 1] == TimerStarted(g, a)
  {
    var c0 := if ConfigRead in cmds then Decided(s, cmds[ConfigRead]) else Step(s, []);
    var c1 := if AlertSend in cmds then Decided(c0.state, cmds[AlertSend]) else Step(c0.state, []);
    assert CommandReply(Cancel) in c0.effects + c1.effects;
  }

  /*************************** the poll loop ***************************/

  /** What the outside world supplies for one guild in one tick: the alerts the feed
      returns (empty for a non-200 reply), whether the admin lookup finds a member,
      and whether the direct message to that member goes through. */
  datatype GuildPoll = GuildPoll(guild: GuildId, fetched: seq<Alert>, adminResolves: bool, dmDelivered: bool)

  /** A guild nobody configured reads as the registered defaults. */
  function ConfigOf(configs: map<GuildId, GuildConfig>, g: GuildId): GuildConfig
  {
    if g in configs then configs[g] else DefaultGuildConfig()
  }

  /** One guild's turn in `alert_check_loop`. */
  function PollGuild(s: SeqState, c: GuildConfig, p: GuildPoll): (r: Step)
    ensures !Monitored(c) || Matches(p.fetched, c.alerts) == [] || s.pending ==> r == Step(s, [])
    ensures Monitored(c) && Matches(p.fetched, c.alerts) != [] && !s.pending ==>
      r == HandleAlert(s.(pending := true), p.guild, Matches(p.fetched, c.alerts)[0], p.adminResolves, p.dmDelivered)
  {
    if !Monitored(c) || p.fetched == [] then Step(s, [])
    else
      var matches := Matches(p.fetched, c.alerts);
      if matches != [] && !s.pending then
        HandleAlert(s.(pending := true), p.guild, matches[0], p.adminResolves, p.dmDelivered)
      else Step(s, [])
  }

  /** One run of `alert_check_loop` over the guilds, in order. */
  function Tick(s: SeqState, configs: map<GuildId, GuildConfig>, polls: seq<GuildPoll>): (r: Step)
    ensures r.state.task == s.task || r.state.task == Active
    decreases |polls|
  {
    if polls == [] then Step(s, [])
    else
      var before := Tick(s, configs, polls[..|polls| - 1]);
      var last := polls[|polls| - 1];
      var r := PollGuild(before.state, ConfigOf(configs, last.guild), last);
      Step(r.state, before.effects + r.effects)
  }

  function CountStarts(effects: seq<Effect>): nat
  {
    if effects == [] then 0
    else CountStarts(effects[..|effects| - 1]) + (if effects[|effects| - 1].TimerStarted? then 1 else 0)
  }

  lemma {:induction false} CountStartsAppend(a: seq<Effect>, b: seq<Effect>)
    ensures CountStarts(a + b) == CountStarts(a) + CountStarts(b)
    decreases |b|
  {
    if b == [] {
      assert a + b == a;
    } else {
      CountStartsAppend(a, b[..|b| - 1]);
      assert (a + b)[..|a + b| - 1] == a + b[..|b| - 1];
      assert (a + b)[|a + b| - 1] == b[|b| - 1];
    }
  }

  /** While a sequence is pending, a tick changes nothing and sends nothing. */
  lemma {:induction false} TickDebounced(s: SeqState, configs: map<GuildId, GuildConfig>, polls: seq<GuildPoll>)
    requires s.pending
    ensures Tick(s, configs, polls) == Step(s, [])
    decreases |polls|
  {
    if polls != [] {
      TickDebounced(s, configs, polls[..|polls| - 1]);
    }
  }

  /** One guild's turn creates at most one task, and only from an idle state. */
  lemma PollGuildStartsAtMostOne(st: SeqState, c: GuildConfig, p: GuildPoll)
    ensures var r := PollGuild(st, c, p);
      && CountStarts(r.effects) <= 1
      && (CountStarts(r.effects) == 1 ==> !st.pending && r.state.pending && r.state.task == Active)
      && (CountStarts(r.effects) == 0 ==> r.state == st)
  {
    var r := PollGuild(st, c, p);
    if CountStarts(r.effects) != 0 {
      var m := Matches(p.fetched, c.alerts);
      var dm := if p.dmDelivered then [AdminAlert(m[0])] else [];
      assert r.effects == dm + [TimerStarted(p.guild, m[0])];
      CountStartsAppend(dm, [TimerStarted(p.guild, m[0])]);
      assert CountStarts([TimerStarted(p.guild, m[0])]) == 1 by {
        assert [TimerStarted(p.guild, m[0])][..0] == [];
      }
    }
  }

  /** A tick creates at most one countdown task, and when it does the sequence is left
      pending with that task running: a guild whose admin cannot be found hands the
      turn on to the next guild, a guild whose sequence starts ends the turn for all. */
  lemma {:induction false} TickStartsAtMostOneTimer(s: SeqState, configs: map<GuildId, GuildConfig>, polls: seq<GuildPoll>)
    ensures var r := Tick(s, configs, polls);
      && CountStarts(r.effects) <= 1
      && (CountStarts(r.effects) == 1 ==> !s.pending && r.state.pending && r.state.task == Active)
      && (CountStarts(r.effects) == 0 ==> r.state == s)
    decreases |polls|
  {
    if polls != [] {
      var init := polls[..|polls| - 1];
      TickStartsAtMostOneTimer(s, configs, init);
      var before := Tick(s, configs, init);
      var last := polls[|polls| - 1];
      PollGuildStartsAtMostOne(before.state, ConfigOf(configs, last.guild), last);
      CountStartsAppend(before.effects, PollGuild(before.state, ConfigOf(configs, last.guild), last).effects);
    }
  }

  /** When no guild's admin can be found, a tick that began idle ends idle: the flag
      may go up and straight back down, but no message is sent and no task created. */
  lemma {:induction false} TickWithoutAdmins(s: SeqState, configs: map<GuildId, GuildConfig>, polls: seq<GuildPoll>)
    requires !s.pending
    requires forall k :: 0 <= k < |polls| ==> !polls[k].adminResolves
    ensures Tick(s, configs, polls) == Step(s, [])
    decreases |polls|
  {
    if polls != [] {
      TickWithoutAdmins(s, configs, polls[..|polls| - 1]);
    }
  }

  /** Every task a tick creates is for a guild that is monitored, and carries the first
      fetched alert whose event that guild tracks. */
  lemma {:induction false} TickStartsOnFirstMatch(s: SeqState, configs: map<GuildId, GuildConfig>, polls: seq<GuildPoll>, e: Effect)
    requires e in Tick(s, configs, polls).effects && e.TimerStarted?
    ensures exists k :: (0 <= k < |polls| && polls[k].guild == e.guild &&
      Monitored(ConfigOf(configs, e.guild)) &&
      Matches(polls[k].fetched, ConfigOf(configs, e.guild).alerts) != [] &&
      e.alert == Matches(polls[k].fetched, ConfigOf(configs, e.guild).alerts)[0])
    decreases |polls|
  {
    var init := polls[..|polls| - 1];
    var before := Tick(s, configs, init);
    var last := polls[|polls| - 1];
    var r := PollGuild(before.state, ConfigOf(configs, last.guild), last);
    if e in before.effects {
      TickStartsOnFirstMatch(s, configs, init, e);
      var k :| 0 <= k < |init| && init[k].guild == e.guild &&
        Monitored(ConfigOf(configs, e.guild)) &&
        Matches(init[k].fetched, ConfigOf(configs, e.guild).alerts) != [] &&
        e.alert == Matches(init[k].fetched, ConfigOf(configs, e.guild).alerts)[0];
      assert polls[k] == init[k];
    } else {
      assert e in r.effects;
      assert polls[|polls| - 1] == last;
    }
  }

  /*************************** the countdown task ***************************/

  /** The suspension points of `start_shutdown_timer`, where other commands can run:
      the wait before each round, the direct message of each round, the channel
      lookup before the announcement, and the final five-minute wait. */
  datatype Point = RoundSleep(round: nat) | RoundSend(round: nat) | BeforeAnnounce | Cooldown

  /** How the round's `try` treats the cancellation raised inside the direct message:
      `CatchAll` is the bare `except:` the code has (it also catches the cancellation),
      `CatchErrors` is `except Exception:` (it lets the cancellation through). */
  datatype Handler = CatchAll | CatchErrors

  /** The channel lookup and send after the last round. */
  datatype ChannelOutcome = NoChannel | Announced | AnnounceFails

  /** The world around one countdown: the alert, the display name of the admin the task
      looks up (None when no member is found), which rounds' messages are delivered,
      what happens in the channel, and the `shutdown` command issued at each point, at
      most one per point (each given by the decision its argument reads as). */
  datatype TimerInputs = TimerInputs(
    alert: Alert,
    admin: Option<string>,
    delivered: seq<bool>,
    channel: ChannelOutcome,
    interrupts: map<Point, Decision>)

  /** A countdown in progress; `stopped` once the task has ended. */
  datatype Run = Run(state: SeqState, effects: seq<Effect>, stopped: bool)

  predicate Delivered(inp: TimerInputs, i: nat)
  {
    i < |inp.delivered| && inp.delivered[i]
  }

  /** The message of round `i`, if the admin is found and the send goes through. */
  function NoticeAt(inp: TimerInputs, i: nat): (r: seq<Effect>)
    requires i < Rounds
    ensures |r| <= 1
    ensures r != [] <==> inp.admin.Some? && Delivered(inp, i)
    ensures forall k :: 0 <= k < |r| ==> r[k].AdminNotice? && r[k].minutes == Rounds - i
  {
    if inp.admin.Some? && Delivered(inp, i) then [AdminNotice(Rounds - i, inp.admin.value)]
    else []
  }

  /** The messages of rounds `lo` to `hi - 1`, when nothing interrupts them. */
  function Notices(inp: TimerInputs, lo: nat, hi: nat): seq<Effect>
    requires hi <= Rounds
    decreases hi - lo
  {
    if hi <= lo then [] else NoticeAt(inp, lo) + Notices(inp, lo + 1, hi)
  }

  /** A `shutdown` command issued while the task waits at point `p`. */
  function Interject(r: Run, inp: TimerInputs, p: Point): Run
  {
    if p in inp.interrupts then
      var c := Decided(r.state, inp.interrupts[p]);
      Run(c.state, r.effects + c.effects, r.stopped)
    else r
  }

  /** The task ends because the cancellation was raised out of it. */
  function Halt(r: Run): Run
  {
    Run(r.state.(task := Done), r.effects, true)
  }

  /** Round `i`: wait, then message the admin. */
  function Round(r: Run, inp: TimerInputs, i: nat, h: Handler): Run
    requires i < Rounds
  {
    var r1 := Interject(r, inp, RoundSleep(i));
    if r1.state.task == CancelRequested then Halt(r1)
    else if inp.admin.None? then r1   // the message cannot be built; the error is caught
    else
      var r2 := Interject(r1, inp, RoundSend(i));
      if r2.state.task == CancelRequested then
        if h == CatchAll then r2.(state := r2.state.(task := Active))   // cancellation swallowed
        else Halt(r2)
      else r2.(effects := r2.effects + NoticeAt(inp, i))
  }

  /** Rounds `i` to 4, from the run `r`; a stopped run stays as it is. */
  function RoundsFrom(r: Run, inp: TimerInputs, i: nat, h: Handler): Run
    requires i <= Rounds
    decreases Rounds - i
  {
    if i == Rounds || r.stopped then r else RoundsFrom(Round(r, inp, i, h), inp, i + 1, h)
  }

  /** What follows the rounds: the channel lookup, the announcement, the final wait
      and the shutdown. A failed announcement raises out of the task. */
  function Finish(r: Run, inp: TimerInputs): (st: Step)
    ensures |r.effects| <= |st.effects| && st.effects[..|r.effects|] == r.effects
    ensures st.state.pending ==> r.state.pending
    ensures !r.stopped ==> st.state.task == Done
  {
    if r.stopped then Step(r.state, r.effects)
    else
      var r1 := Interject(r, inp, BeforeAnnounce);
      if r1.state.task == CancelRequested then Step(r1.state.(task := Done), r1.effects)
      else if inp.channel == AnnounceFails then Step(r1.state.(task := Done), r1.effects)
      else
        var sent := if inp.channel == Announced then [ChannelAnnouncement(inp.alert)] else [];
        var r3 := Interject(Run(r1.state, r1.effects + sent, false), inp, Cooldown);
        if r3.state.task == CancelRequested then Step(r3.state.(task := Done), r3.effects)
        else Step(SeqState(false, Done), r3.effects + [ShutdownTriggered])
  }

  /** A round only adds to the log and never raises the flag. */
  lemma RoundOnlyAppends(r: Run, inp: TimerInputs, i: nat, h: Handler)
    requires i < Rounds
    ensures var r' := Round(r, inp, i, h);
      |r.effects| <= |r'.effects| && r'.effects[..|r.effects|] == r.effects && (r'.state.pending ==> r.state.pending)
  {
    InterjectFacts(r, inp, RoundSleep(i));
    InterjectFacts(Interject(r, inp, RoundSleep(i)), inp, RoundSend(i));
  }

  /** The rounds only add to the log and never raise the flag. */
  lemma {:induction false} RoundsOnlyAppend(r: Run, inp: TimerInputs, i: nat, h: Handler)
    requires i <= Rounds
    ensures var r' := RoundsFrom(r, inp, i, h);
      |r.effects| <= |r'.effects| && r'.effects[..|r.effects|] == r.effects && (r'.state.pending ==> r.state.pending)
    decreases Rounds - i
  {
    if i < Rounds && !r.stopped {
      RoundOnlyAppends(r, inp, i, h);
      RoundsOnlyAppend(Round(r, inp, i, h), inp, i + 1, h);
    }
  }

  /** The whole countdown task, from the state it starts in. */
  function Countdown(s: SeqState, inp: TimerInputs, h: Handler): (st: Step)
    ensures st.state.pending ==> s.pending
  {
    RoundsOnlyAppend(Run(s, [], false), inp, 0, h);
    Finish(RoundsFrom(Run(s, [], false), inp, 0, h), inp)
  }

  predicate CancelAt(inp: TimerInputs, p: Point)
  {
    p in inp.interrupts && inp.interrupts[p] == Cancel
  }

  predicate QuietRound(inp: TimerInputs, i: nat)
  {
    RoundSleep(i) !in inp.interrupts && RoundSend(i) !in inp.interrupts
  }

  /** A command at a point only appends its reply; only "no" changes the state. */
  lemma InterjectFacts(r: Run, inp: TimerInputs, p: Point)
    ensures var r' := Interject(r, inp, p);
      && r'.stopped == r.stopped
      && (p !in inp.interrupts ==> r' == r)
      && (p in inp.interrupts ==> r'.effects == r.effects + Decided(r.state, inp.interrupts[p]).effects)
      && (CancelAt(inp, p) ==>
            r'.state == SeqState(false, CancelTask(r.state.task)) && r'.effects == r.effects + [CommandReply(Cancel)])
      && (!CancelAt(inp, p) ==> r'.state == r.state)
      && (ShutdownTriggered !in r.effects ==> ShutdownTriggered !in r'.effects)
  {
  }

  /** A round in which no command arrives only adds its own message. */
  lemma RoundQuiet(r: Run, inp: TimerInputs, i: nat, h: Handler)
    requires i < Rounds && QuietRound(inp, i) && r.state.task != CancelRequested
    ensures Round(r, inp, i, h) == Run(r.state, r.effects + NoticeAt(inp, i), r.stopped)
  {
    InterjectFacts(r, inp, RoundSleep(i));
    InterjectFacts(r, inp, RoundSend(i));
  }

  /** The run after a quiet round `i`. */
  function AfterQuiet(r: Run, inp: TimerInputs, i: nat): Run
    requires i < Rounds
  {
    Run(r.state, r.effects + NoticeAt(inp, i), r.stopped)
  }

  lemma QuietHead(r: Run, inp: TimerInputs, i: nat, h: Handler)
    requires i < Rounds && !r.stopped && QuietRound(inp, i) && r.state.task != CancelRequested
    ensures RoundsFrom(r, inp, i, h) == RoundsFrom(AfterQuiet(r, inp, i), inp, i + 1, h)
  {
    RoundQuiet(r, inp, i, h);
  }

  lemma NoticesCons(prefix: seq<Effect>, inp: TimerInputs, i: nat, j: nat)
    requires i < j <= Rounds
    ensures prefix + NoticeAt(inp, i) + Notices(inp, i + 1, j) == prefix + Notices(inp, i, j)
  {
    assert Notices(inp, i, j) == NoticeAt(inp, i) + Notices(inp, i + 1, j);
  }

  /** Rounds `i` to `j - 1` in which no command arrives only add their own messages. */
  lemma {:induction false} QuietRounds(r: Run, inp: TimerInputs, i: nat, j: nat, h: Handler)
    requires i <= j <= Rounds && !r.stopped && r.state.task != CancelRequested
    requires forall k :: i <= k < j ==> QuietRound(inp, k)
    ensures RoundsFrom(r, inp, i, h) == RoundsFrom(Run(r.state, r.effects + Notices(inp, i, j), false), inp, j, h)
    decreases j - i
  {
    if i < j {
      QuietHead(r, inp, i, h);
      QuietRounds(AfterQuiet(r, inp, i), inp, i + 1, j, h);
      NoticesCons(r.effects, inp, i, j);
    } else {
      assert r.effects + Notices(inp, i, j) == r.effects;
    }
  }

  /** The last thing logged is the reply "Shutdown has been cancelled.". */
  predicate EndsWithCancelReply(effects: seq<Effect>)
  {
    effects != [] && effects[|effects| - 1] == CommandReply(Cancel)
  }

  /** What holds between rounds when the task started running: a stopped task was
      cancelled, took the flag down and logged nothing after the reply, a live one is
      running, and nothing has triggered the shutdown. */
  predicate Settled(r: Run)
  {
    && (r.stopped ==> !r.state.pending && r.state.task == Done && EndsWithCancelReply(r.effects))
    && (!r.stopped ==> r.state.task == Active)
    && ShutdownTriggered !in r.effects
  }

  /** No "no" arrives at a point of round `i` that the round reaches. */
  predicate NoCancelIn(inp: TimerInputs, i: nat)
  {
    !CancelAt(inp, RoundSleep(i)) && (inp.admin.Some? ==> !CancelAt(inp, RoundSend(i)))
  }

  /** One round keeps `Settled`; a round that leaves the task running saw no "no"
      during its wait, and with `except Exception:` none during its message either. */
  lemma RoundFacts(r: Run, inp: TimerInputs, i: nat, h: Handler)
    requires i < Rounds && Settled(r) && !r.stopped
    ensures Settled(Round(r, inp, i, h))
    ensures !Round(r, inp, i, h).stopped ==> !CancelAt(inp, RoundSleep(i))
    ensures h == CatchErrors && !Round(r, inp, i, h).stopped ==> NoCancelIn(inp, i)
  {
    var r1 := Interject(r, inp, RoundSleep(i));
    InterjectFacts(r, inp, RoundSleep(i));
    if r1.state.task != CancelRequested && inp.admin.Some? {
      InterjectFacts(r1, inp, RoundSend(i));
    }
  }

  /** The rounds keep `Settled`. */
  lemma {:induction false} RoundsKeepSettled(r: Run, inp: TimerInputs, i: nat, h: Handler)
    requires i <= Rounds && Settled(r)
    ensures Settled(RoundsFrom(r, inp, i, h))
    decreases Rounds - i
  {
    if i < Rounds && !r.stopped {
      RoundFacts(r, inp, i, h);
      RoundsKeepSettled(Round(r, inp, i, h), inp, i + 1, h);
    }
  }

  /** Under either handler, a "no" during the wait of round `k` stops the task by the
      end of the rounds. */
  lemma {:induction false} SleepCancelStops(r: Run, inp: TimerInputs, i: nat, k: nat, h: Handler)
    requires i <= k < Rounds && Settled(r) && CancelAt(inp, RoundSleep(k))
    ensures RoundsFrom(r, inp, i, h).stopped
    decreases k - i
  {
    if !r.stopped {
      RoundFacts(r, inp, i, h);
      if i < k {
        SleepCancelStops(Round(r, inp, i, h), inp, i + 1, k, h);
      }
    }
  }

  /** With `except Exception:`, a task still running after the rounds saw no "no" in them. */
  lemma {:induction false} RunningMeansNoCancel(r: Run, inp: TimerInputs, i: nat)
    requires i <= Rounds && Settled(r) && !r.stopped
    requires !RoundsFrom(r, inp, i, CatchErrors).stopped
    ensures forall k :: i <= k < Rounds ==> NoCancelIn(inp, k)
    decreases Rounds - i
  {
    if i < Rounds {
      RoundFacts(r, inp, i, CatchErrors);
      RunningMeansNoCancel(Round(r, inp, i, CatchErrors), inp, i + 1);
    }
  }

  /** A point the task gets to when nothing stops it earlier: the round's direct
      message only when the admin was found, the final wait only when the
      announcement did not fail. */
  predicate Reached(inp: TimerInputs, p: Point)
  {
    match p
    case RoundSleep(i) => i < Rounds
    case RoundSend(i) => i < Rounds && inp.admin.Some?
    case BeforeAnnounce => true
    case Cooldown => inp.channel != AnnounceFails
  }

  /** After a settled run, the end of the task never leaves it running; and a task
      stopped by a "no", or a "no" at one of its reached points, ends it before the
      shutdown, with the flag down and nothing logged after the reply. */
  lemma FinishFacts(r: Run, inp: TimerInputs)
    requires Settled(r)
    ensures Finish(r, inp).state.task == Done
    ensures r.stopped ==>
      (ShutdownTriggered !in Finish(r, inp).effects && !Finish(r, inp).state.pending
       && EndsWithCancelReply(Finish(r, inp).effects))
    ensures !r.stopped && (CancelAt(inp, BeforeAnnounce) || (CancelAt(inp, Cooldown) && inp.channel != AnnounceFails)) ==>
      (ShutdownTriggered !in Finish(r, inp).effects && !Finish(r, inp).state.pending
       && EndsWithCancelReply(Finish(r, inp).effects))
  {
    if !r.stopped {
      var r1 := Interject(r, inp, BeforeAnnounce);
      InterjectFacts(r, inp, BeforeAnnounce);
      var sent := if inp.channel == Announced then [ChannelAnnouncement(inp.alert)] else [];
      InterjectFacts(Run(r1.state, r1.effects + sent, false), inp, Cooldown);
    }
  }

  /** With `except Exception:` a "no" at any point the countdown reaches stops it: the
      shutdown is never triggered, the flag ends down, and the task sends nothing after
      the "cancelled" reply. */
  lemma CatchErrorsHonorsCancel(s: SeqState, inp: TimerInputs, p: Point)
    requires s.task == Active && Reached(inp, p) && CancelAt(inp, p)
    ensures var c := Countdown(s, inp, CatchErrors);
      ShutdownTriggered !in c.effects && !c.state.pending && EndsWithCancelReply(c.effects)
  {
    var start := Run(s, [], false);
    var r := RoundsFrom(start, inp, 0, CatchErrors);
    RoundsKeepSettled(start, inp, 0, CatchErrors);
    FinishFacts(r, inp);
    if !r.stopped {
      RunningMeansNoCancel(start, inp, 0);
      assert (p.RoundSleep? || p.RoundSend?) ==> NoCancelIn(inp, p.round);
    }
  }

  /** Under either handler, the bare `except:` as written included, a "no" while the task
      waits (before a round, at the channel lookup, or in the final wait) stops it:
      the shutdown is never triggered, the flag ends down, and the task sends nothing
      after the "cancelled" reply. */
  lemma CancelAtWaitStops(s: SeqState, inp: TimerInputs, p: Point, h: Handler)
    requires s.task == Active && Reached(inp, p) && CancelAt(inp, p) && !p.RoundSend?
    ensures var c := Countdown(s, inp, h);
      ShutdownTriggered !in c.effects && !c.state.pending && EndsWithCancelReply(c.effects)
  {
    var start := Run(s, [], false);
    var r := RoundsFrom(start, inp, 0, h);
    RoundsKeepSettled(start, inp, 0, h);
    FinishFacts(r, inp);
    if p.RoundSleep? {
      SleepCancelStops(start, inp, 0, p.round, h);
    }
  }

  /** A single "no" during the wait before round `k`: the task has sent the messages of
      the earlier rounds, then the reply, and nothing more. */
  lemma SingleSleepCancel(s: SeqState, inp: TimerInputs, k: nat, h: Handler)
    requires s.task == Active && k < Rounds && inp.interrupts == map[RoundSleep(k) := Cancel]
    ensures Countdown(s, inp, h) == Step(SeqState(false, Done), Notices(inp, 0, k) + [CommandReply(Cancel)])
  {
    QuietRounds(Run(s, [], false), inp, 0, k, h);
    var before := Run(s, Notices(inp, 0, k), false);
    assert [] + Notices(inp, 0, k) == Notices(inp, 0, k);
    InterjectFacts(before, inp, RoundSleep(k));
    var halted := Run(SeqState(false, Done), Notices(inp, 0, k) + [CommandReply(Cancel)], true);
    assert Round(before, inp, k, h) == halted;
    assert RoundsFrom(before, inp, k, h) == RoundsFrom(halted, inp, k + 1, h);
  }

  /** Every command during the countdown is "yes" or an unrecognised word. */
  predicate NoCancelCommand(inp: TimerInputs)
  {
    forall p :: p in inp.interrupts ==> inp.interrupts[p] != Cancel
  }

  /** Without a "no", a round keeps the task running in the same state and triggers
      nothing. */
  lemma NoCancelRound(r: Run, inp: TimerInputs, i: nat, h: Handler)
    requires i < Rounds && NoCancelCommand(inp) && !r.stopped && r.state.task == Active
    requires ShutdownTriggered !in r.effects
    ensures var r' := Round(r, inp, i, h);
      !r'.stopped && r'.state == r.state && ShutdownTriggered !in r'.effects
  {
    var r1 := Interject(r, inp, RoundSleep(i));
    InterjectFacts(r, inp, RoundSleep(i));
    InterjectFacts(r1, inp, RoundSend(i));
  }

  /** Without a "no", the remaining rounds keep the task running in the same state and
      trigger nothing. */
  lemma {:induction false} NoCancelRounds(r: Run, inp: TimerInputs, i: nat, h: Handler)
    requires i <= Rounds && NoCancelCommand(inp) && !r.stopped && r.state.task == Active
    requires ShutdownTriggered !in r.effects
    ensures var r' := RoundsFrom(r, inp, i, h);
      !r'.stopped && r'.state == r.state && ShutdownTriggered !in r'.effects
    decreases Rounds - i
  {
    if i < Rounds {
      NoCancelRound(r, inp, i, h);
      NoCancelRounds(Round(r, inp, i, h), inp, i + 1, h);
    }
  }

  /** The converse of `CancelAtWaitStops`: when every command during the countdown is
      "yes" or an unrecognised word, under either handler the shutdown is the last
      thing the task does, only once, and it takes the flag down. */
  lemma NoCancelShutsDown(s: SeqState, inp: TimerInputs, h: Handler)
    requires s.task == Active && NoCancelCommand(inp) && inp.channel != AnnounceFails
    ensures var c := Countdown(s, inp, h);
      && c.state == SeqState(false, Done)
      && c.effects != [] && c.effects[|c.effects| - 1] == ShutdownTriggered
      && ShutdownTriggered !in c.effects[..|c.effects| - 1]
  {
    var r := RoundsFrom(Run(s, [], false), inp, 0, h);
    NoCancelRounds(Run(s, [], false), inp, 0, h);
    var r1 := Interject(r, inp, BeforeAnnounce);
    InterjectFacts(r, inp, BeforeAnnounce);
    var sent := if inp.channel == Announced then [ChannelAnnouncement(inp.alert)] else [];
    var r2 := Run(r1.state, r1.effects + sent, false);
    InterjectFacts(r2, inp, Cooldown);
    var r3 := Interject(r2, inp, Cooldown);
    assert Countdown(s, inp, h).effects == r3.effects + [ShutdownTriggered];
  }

  /** With no commands, a round-trip of the whole countdown: the direct messages of the
      five rounds, the announcement when a channel is found, and the shutdown, which
      takes the flag down. */
  lemma CountdownUninterrupted(s: SeqState, inp: TimerInputs, h: Handler)
    requires s.task == Active && inp.interrupts == map[] && inp.channel != AnnounceFails
    ensures Countdown(s, inp, h) == Step(SeqState(false, Done), Notices(inp, 0, Rounds)
      + (if inp.channel == Announced then [ChannelAnnouncement(inp.alert)] else []) + [ShutdownTriggered])
  {
    QuietRounds(Run(s, [], false), inp, 0, Rounds, h);
    assert [] + Notices(inp, 0, Rounds) == Notices(inp, 0, Rounds);
  }

  /** A failed announcement ends the task with the flag still up: with no commands the
      shutdown never comes, and every later tick is debounced (`TickDebounced`). */
  lemma AnnouncementFailureStrandsPending(s: SeqState, inp: TimerInputs, h: Handler)
    requires s == SeqState(true, Active) && inp.interrupts == map[] && inp.channel == AnnounceFails
    ensures Countdown(s, inp, h) == Step(SeqState(true, Done), Notices(inp, 0, Rounds))
  {
    QuietRounds(Run(s, [], false), inp, 0, Rounds, h);
    assert [] + Notices(inp, 0, Rounds) == Notices(inp, 0, Rounds);
  }

  /** Round `k` with a "no" during its direct message, under the bare `except:`: the
      cancellation is swallowed, so the flag goes down but the task keeps running. */
  lemma SwallowedRound(r: Run, inp: TimerInputs, k: nat)
    requires k < Rounds && inp.admin.Some? && !r.stopped && r.state.task == Active
    requires RoundSleep(k) !in inp.interrupts && CancelAt(inp, RoundSend(k))
    ensures Round(r, inp, k, CatchAll) == Run(SeqState(false, Active), r.effects + [CommandReply(Cancel)], false)
  {
    InterjectFacts(r, inp, RoundSleep(k));
    InterjectFacts(r, inp, RoundSend(k));
  }

  /** The end of a running task with no command at its last two points. */
  lemma FinishQuiet(r: Run, inp: TimerInputs)
    requires !r.stopped && r.state.task == Active && inp.channel != AnnounceFails
    requires BeforeAnnounce !in inp.interrupts && Cooldown !in inp.interrupts
    ensures Finish(r, inp) == Step(SeqState(false, Done), r.effects
      + (if inp.channel == Announced then [ChannelAnnouncement(inp.alert)] else []) + [ShutdownTriggered])
  {
    InterjectFacts(r, inp, BeforeAnnounce);
    var sent := if inp.channel == Announced then [ChannelAnnouncement(inp.alert)] else [];
    InterjectFacts(Run(r.state, r.effects + sent, false), inp, Cooldown);
  }

  /** The rounds of a countdown whose only command is a "no" during round `k`'s direct
      message, under the bare `except:`. */
  lemma SwallowedRounds(s: SeqState, inp: TimerInputs, k: nat)
    requires s.task == Active && k < Rounds && inp.admin.Some?
    requires inp.interrupts == map[RoundSend(k) := Cancel]
    ensures RoundsFrom(Run(s, [], false), inp, 0, CatchAll) ==
      Run(SeqState(false, Active), Notices(inp, 0, k) + [CommandReply(Cancel)] + Notices(inp, k + 1, Rounds), false)
  {
    QuietRounds(Run(s, [], false), inp, 0, k, CatchAll);
    var before := Run(s, Notices(inp, 0, k), false);
    assert [] + Notices(inp, 0, k) == Notices(inp, 0, k);
    SwallowedRound(before, inp, k);
    var after := Run(SeqState(false, Active), Notices(inp, 0, k) + [CommandReply(Cancel)], false);
    assert RoundsFrom(before, inp, k, CatchAll) == RoundsFrom(after, inp, k + 1, CatchAll);
    QuietRounds(after, inp, k + 1, Rounds, CatchAll);
  }

  /** The bare `except:` as written: a single "no" that lands while round `k`'s direct
      message is being sent is answered "cancelled", yet the countdown runs on and the
      shutdown is triggered. Under `except Exception:` the same input never triggers
      it (`CatchErrorsHonorsCancel` with the point `RoundSend(k)`). */
  lemma CatchAllSwallowsCancelInSend(s: SeqState, inp: TimerInputs, k: nat)
    requires s.task == Active && k < Rounds && inp.admin.Some? && inp.channel != AnnounceFails
    requires inp.interrupts == map[RoundSend(k) := Cancel]
    ensures CommandReply(Cancel) in Countdown(s, inp, CatchAll).effects
    ensures Countdown(s, inp, CatchAll).effects[|Countdown(s, inp, CatchAll).effects| - 1] == ShutdownTriggered
    ensures Countdown(s, inp, CatchAll).state == SeqState(false, Done)
  {
    SwallowedRounds(s, inp, k);
    var r := RoundsFrom(Run(s, [], false), inp, 0, CatchAll);
    FinishQuiet(r, inp);
    assert r.effects[|Notices(inp, 0, k)|] == CommandReply(Cancel);
  }

  /** After a "no" swallowed during round `k`'s message, the flag is down while the
      countdown task still runs, so the poll is no longer debounced: the next matching
      guild starts a second countdown task while the first still runs. (A "no" inside
      `handle_alert` leaves the same state: `CancelInHandleAlertStillStarts`.) */
  lemma SwallowedCancelRearmsPoll(r: Run, inp: TimerInputs, k: nat, c: GuildConfig, p: GuildPoll)
    requires k < Rounds && inp.admin.Some? && !r.stopped && r.state.task == Active
    requires RoundSleep(k) !in inp.interrupts && CancelAt(inp, RoundSend(k))
    requires Monitored(c) && Matches(p.fetched, c.alerts) != [] && p.adminResolves
    ensures var after := Round(r, inp, k, CatchAll);
      var poll := PollGuild(after.state, c, p);
      && !after.stopped && after.state == SeqState(false, Active)
      && poll.state == SeqState(true, Active)
      && poll.effects[|poll.effects| - 1] == TimerStarted(p.guild, Matches(p.fetched, c.alerts)[0])
  {
    SwallowedRound(r, inp, k);
  }

  /** The direct messages of rounds `lo` to `hi - 1` go to the admin found at the start
      and count the minutes down, starting below `6 - lo` and ending above `5 - hi`. */
  lemma {:induction false} NoticesCountDown(inp: TimerInputs, lo: nat, hi: nat)
    requires lo <= hi <= Rounds
    ensures var ns := Notices(inp, lo, hi);
      && |ns| <= hi - lo
      && (inp.admin.None? ==> ns == [])
      && (forall k :: 0 <= k < |ns| ==>
            ns[k].AdminNotice? && inp.admin.Some? && ns[k].admin == inp.admin.value &&
            Rounds - hi < ns[k].minutes <= Rounds - lo)
      && (forall k, l :: 0 <= k < l < |ns| && ns[k].AdminNotice? && ns[l].AdminNotice? ==>
            ns[k].minutes > ns[l].minutes)
    decreases hi - lo
  {
    if lo < hi {
      NoticesCountDown(inp, lo + 1, hi);
      var head, tail := NoticeAt(inp, lo), Notices(inp, lo + 1, hi);
      assert Notices(inp, lo, hi) == head + tail;
      if head != [] {
        assert forall k :: 1 <= k < |head + tail| ==> (head + tail)[k] == tail[k - 1];
      }
    }
  }

  /** No message of rounds `lo` to `hi - 1` says more than `5 - lo` minutes. */
  lemma NoticesBelow(inp: TimerInputs, lo: nat, hi: nat)
    requires lo <= hi <= Rounds
    ensures forall e :: e in Notices(inp, lo, hi) ==> e.AdminNotice? && e.minutes <= Rounds - lo
  {
    NoticesCountDown(inp, lo, hi);
  }

  /** Round `i`'s message, saying `5 - i` minutes, is among them exactly when that
      round's send went through (with no admin there are none at all:
      `NoticesCountDown`). */
  lemma {:induction false} NoticePresentIffDelivered(inp: TimerInputs, lo: nat, hi: nat, i: nat)
    requires inp.admin.Some? && lo <= i < hi <= Rounds
    ensures AdminNotice(Rounds - i, inp.admin.value) in Notices(inp, lo, hi) <==> Delivered(inp, i)
    decreases hi - lo
  {
    var e := AdminNotice(Rounds - i, inp.admin.value);
    var head, tail := NoticeAt(inp, lo), Notices(inp, lo + 1, hi);
    assert Notices(inp, lo, hi) == head + tail;
    assert e in head + tail <==> e in head || e in tail;
    if lo < i {
      NoticePresentIffDelivered(inp, lo + 1, hi, i);
      assert e !in head;
    } else {
      NoticesBelow(inp, lo + 1, hi);
      assert e !in tail;
    }
  }

  /** With the admin found and every send delivered, the five messages say 5, 4, 3, 2
      and 1 minutes, in that order. */
  lemma FullCountdownMessages(inp: TimerInputs)
    requires inp.admin.Some? && |inp.delivered| >= Rounds
    requires forall i :: 0 <= i < Rounds ==> inp.delivered[i]
    ensures var n := inp.admin.value;
      Notices(inp, 0, Rounds) ==
        [AdminNotice(5, n), AdminNotice(4, n), AdminNotice(3, n), AdminNotice(2, n), AdminNotice(1, n)]
  {
    assert Delivered(inp, 0) && Delivered(inp, 1) && Delivered(inp, 2) && Delivered(inp, 3) && Delivered(inp, 4);
    assert Notices(inp, 5, Rounds) == [];
  }

  /*************************** message texts ***************************/

  /** The text of one round's direct message. */
  function NoticeText(name: string, minutes: nat): (t: string)
    ensures |name| + 1 < |t| && t[..|name| + 1] == "@" + name
  {
    "@" + name + ", please respond with !shutdown yes or !shutdown no. Server will shut down in "
      + NatToString(minutes) + " minutes."
  }

  /** The number in a round's message reads back as that round's minutes, and the
      message starts by mentioning the admin. */
  lemma NoticeTextStatesMinutes(name: string, minutes: nat)
    ensures var t, p := NoticeText(name, minutes), |NoticeText(name, 0)| - |" minutes."| - 1;
      && p + |NatToString(minutes)| <= |t|
      && t[0] == '@' && OccursAt(name, t, 1)
      && (forall k :: p <= k < p + |NatToString(minutes)| ==> '0' <= t[k] <= '9')
      && DigitsValue(t[p..p + |NatToString(minutes)|]) == minutes
  {
    var p := |NoticeText(name, 0)| - |" minutes."| - 1;
    var t := NoticeText(name, minutes);
    assert |NatToString(0)| == 1;
    assert t[p..p + |NatToString(minutes)|] == NatToString(minutes);
    assert t[1..1 + |name|] == name;
    NatToStringRoundTrip(minutes);
  }

  /** The text a message effect carries: the embed description for the two embeds,
      the plain text for the others; the task bookkeeping has none. */
  function MessageText(e: Effect): Option<string>
  {
    match e
    case AdminAlert(a) => Some(AdminDescription(a))
    case AdminNotice(m, name) => Some(NoticeText(name, m))
    case ChannelAnnouncement(a) => Some(AnnouncementDescription(a))
    case CommandReply(d) => Some(ReplyText(d))
    case TimerStarted(_, _) => None
    case ShutdownTriggered => None
  }

  /** Every message names what it is about: the admin embed and the shutdown notice the
      alert's event, a round's message the admin it mentions. */
  lemma MessagesNameTheirSubject(e: Effect)
    ensures e.AdminAlert? ==> MessageText(e).Some? && IsSubstring(e.alert.event, MessageText(e).value)
    ensures e.ChannelAnnouncement? ==> MessageText(e).Some? && IsSubstring(e.alert.event, MessageText(e).value)
    ensures e.AdminNotice? ==> MessageText(e).Some? && IsSubstring(e.admin, MessageText(e).value)
    ensures MessageText(e).None? <==> e.TimerStarted? || e.ShutdownTriggered?
  {
    match e
    case AdminAlert(a) =>
      AdminDescriptionLayout(a);
    case ChannelAnnouncement(a) =>
      AnnouncementNamesEvent(a);
    case AdminNotice(m, name) =>
      NoticeTextStatesMinutes(name, m);
    case _ =>
  }
}

/** The severe-weather cog itself (nwsshutdown/core.py): the shared `shutdown_pending`
    flag, the countdown task handle and the per-guild configuration, updated in place
    by the poll loop, `handle_alert`, the countdown task and the commands. Every
    message the cog sends is appended to `effects`. Each method is proved to leave
    exactly the state that the matching function of NwsSequencer computes. */
module NwsCog {
  import opened Common
  import opened NwsConfig
  import opened NwsFilter
  import opened NwsSequencer

  class WeatherShutdown {
    var pending: bool
    var task: TaskHandle
    var configs: map<GuildId, GuildConfig>
    var effects: seq<Effect>

    /** Every stored guild record keeps its alert list well formed. */
    ghost predicate Valid()
      reads this
    {
      forall g :: g in configs ==> WellFormed(configs[g])
    }

    function State(): SeqState
      reads this
    {
      SeqState(pending, task)
    }

    /** A freshly loaded cog: nothing pending, no task, no stored guild record. */
    constructor()
      ensures Valid()
      ensures State() == SeqState(false, NoTask) && configs == map[] && effects == []
    {
      pending := false;
      task := NoTask;
      configs := map[];
      effects := [];
    }

    /** Carries out a classified `shutdown` command. */
    method ApplyDecision(d: Decision)
      modifies this
      ensures State() == Decided(old(State()), d).state
      ensures effects == old(effects) + Decided(old(State()), d).effects
      ensures configs == old(configs)
    {
      if d == Cancel {
        pending := false;
        if task != NoTask {
          task := CancelTask(task);
        }
      }
      effects := effects + [CommandReply(d)];
    }

    /** `shutdown <decision>`. */
    method Shutdown(decision: string)
      modifies this
      ensures State() == ShutdownCommand(old(State()), decision).state
      ensures effects == old(effects) + ShutdownCommand(old(State()), decision).effects
      ensures configs == old(configs)
    {
      var d := Lower(decision);
      if d == "no" {
        ApplyDecision(Cancel);
      } else if d == "yes" {
        ApplyDecision(Confirm);
      } else {
        ApplyDecision(Unrecognised);
      }
    }

    /** `handle_alert`. */
    method HandleAlert(g: GuildId, a: Alert, adminResolves: bool, dmDelivered: bool)
      modifies this
      ensures State() == NwsSequencer.HandleAlert(old(State()), g, a, adminResolves, dmDelivered).state
      ensures effects == old(effects) + NwsSequencer.HandleAlert(old(State()), g, a, adminResolves, dmDelivered).effects
      ensures configs == old(configs)
    {
      if !adminResolves {
        pending := false;
        return;
      }
      if dmDelivered {
        effects := effects + [AdminAlert(a)];
      }
      task := Active;
      effects := effects + [TimerStarted(g, a)];
    }

    /** One guild's turn in `alert_check_loop`, with that guild's record `c`. */
    method PollOne(c: GuildConfig, p: GuildPoll)
      modifies this
      ensures State() == PollGuild(old(State()), c, p).state
      ensures effects == old(effects) + PollGuild(old(State()), c, p).effects
      ensures configs == old(configs)
    {
      if !c.enabled || !Truthy(c.lat) || !Truthy(c.lon) || p.fetched == [] {
        return;
      }
      var matches := Matches(p.fetched, c.alerts);
      if matches != [] && !pending {
        pending := true;
        HandleAlert(p.guild, matches[0], p.adminResolves, p.dmDelivered);
      }
    }

    /** One run of `alert_check_loop` over the guilds in `polls`. */
    method AlertCheckLoop(polls: seq<GuildPoll>)
      modifies this
      ensures State() == Tick(old(State()), configs, polls).state
      ensures effects == old(effects) + Tick(old(State()), configs, polls).effects
      ensures configs == old(configs)
    {
      for k := 0 to |polls|
        invariant State() == Tick(old(State()), configs, polls[..k]).state
        invariant effects == old(effects) + Tick(old(State()), configs, polls[..k]).effects
        invariant configs == old(configs)
      {
        assert polls[..k + 1][..k] == polls[..k];
        PollOne(ConfigOf(configs, polls[k].guild), polls[k]);
      }
      assert polls[..|polls|] == polls;
    }

    /** A `shutdown` command issued while the countdown waits at point `p`; `r` is the
        countdown so far, whose messages follow `base` in the log. */
    method InterjectAt(inp: TimerInputs, p: Point, ghost base: seq<Effect>, ghost r: Run) returns (ghost r': Run)
      requires State() == r.state && effects == base + r.effects
      modifies this
      ensures r' == Interject(r, inp, p)
      ensures State() == r'.state && effects == base + r'.effects
      ensures configs == old(configs)
    {
      r' := Interject(r, inp, p);
      if p in inp.interrupts {
        ApplyDecision(inp.interrupts[p]);
      }
    }

    /** Round `i` of the countdown: the wait, then the direct message. A "no" during the
        wait ends the task; a "no" during the message ends it under `except Exception:`
        and is swallowed, leaving the task running, under the bare `except:`. */
    method CountdownRound(inp: TimerInputs, i: nat, h: Handler, ghost base: seq<Effect>, ghost r: Run)
      returns (stopped: bool, ghost r': Run)
      requires i < Rounds && !r.stopped && State() == r.state && effects == base + r.effects
      modifies this
      ensures r' == Round(r, inp, i, h) && stopped == r'.stopped
      ensures State() == r'.state && effects == base + r'.effects
      ensures configs == old(configs)
    {
      r' := InterjectAt(inp, RoundSleep(i), base, r);
      if task == CancelRequested {
        task := Done;
        return true, Halt(r');
      }
      if inp.admin.Some? {
        r' := InterjectAt(inp, RoundSend(i), base, r');
        if task == CancelRequested {
          if h == CatchAll {
            task := Active;
            return false, r'.(state := r'.state.(task := Active));
          }
          task := Done;
          return true, Halt(r');
        }
        if Delivered(inp, i) {
          effects := effects + [AdminNotice(Rounds - i, inp.admin.value)];
        }
        r' := r'.(effects := r'.effects + NoticeAt(inp, i));
      }
      stopped := false;
    }

    /** `start_shutdown_timer`, with the round's handler `h`: `CatchAll` is the code as
        written, `CatchErrors` the handler that lets a "no" through (see
        `NwsSequencer.CatchAllSwallowsCancelInSend` and
        `NwsSequencer.CatchErrorsHonorsCancel`). */
    method StartShutdownTimer(inp: TimerInputs, h: Handler)
      modifies this
      ensures State() == Countdown(old(State()), inp, h).state
      ensures effects == old(effects) + Countdown(old(State()), inp, h).effects
      ensures configs == old(configs)
    {
      ghost var base := effects;
      ghost var start := Run(State(), [], false);
      ghost var r := start;
      var i := 0;
      while i < Rounds
        invariant 0 <= i <= Rounds
        invariant !r.stopped && State() == r.state && effects == base + r.effects
        invariant RoundsFrom(r, inp, i, h) == RoundsFrom(start, inp, 0, h)
        invariant configs == old(configs)
      {
        var stopped;
        stopped, r := CountdownRound(inp, i, h, base, r);
        if stopped {
          return;
        }
        i := i + 1;
      }
      FinishTask(inp, base, r);
    }

    /** The end of the countdown task: the announcement, the last wait and the shutdown. */
    method FinishTask(inp: TimerInputs, ghost base: seq<Effect>, ghost r: Run)
      requires !r.stopped && State() == r.state && effects == base + r.effects
      modifies this
      ensures State() == Finish(r, inp).state && effects == base + Finish(r, inp).effects
      ensures configs == old(configs)
    {
      ghost var r1 := InterjectAt(inp, BeforeAnnounce, base, r);
      if task == CancelRequested || inp.channel == AnnounceFails {
        task := Done;
        return;
      }
      if inp.channel == Announced {
        effects := effects + [ChannelAnnouncement(inp.alert)];
      }
      ghost var sent := if inp.channel == Announced then [ChannelAnnouncement(inp.alert)] else [];
      ghost var r3 := InterjectAt(inp, Cooldown, base, Run(r1.state, r1.effects + sent, false));
      if task == CancelRequested {
        task := Done;
        return;
      }
      effects := effects + [ShutdownTriggered];
      pending := false;
      task := Done;
    }

    /** `weather addalert`. */
    method AddAlert(g: GuildId, name: string) returns (reply: string)
      requires Valid()
      modifies this
      ensures Valid()
      ensures ConfigOf(configs, g) == ConfigOf(old(configs), g).(alerts := NwsConfig.AddAlert(ConfigOf(old(configs), g).alerts, name))
      ensures name in ConfigOf(old(configs), g).alerts ==> configs == old(configs)
      ensures forall h :: h != g ==> (h in configs <==> h in old(configs)) && (h in configs ==> configs[h] == old(configs)[h])
      ensures reply == if name in ConfigOf(old(configs), g).alerts then "That alert type is already being tracked."
                       else "Alert '" + name + "' added."
      ensures State() == old(State()) && effects == old(effects)
    {
      var c := ConfigOf(configs, g);
      if name !in c.alerts {
        AddAlertKeepsWellFormed(c, name);
        configs := configs[g := c.(alerts := c.alerts + [name])];
        reply := "Alert '" + name + "' added.";
      } else {
        reply := "That alert type is already being tracked.";
      }
    }

    /** `weather removealert`. */
    method RemoveAlert(g: GuildId, name: string) returns (reply: string)
      requires Valid()
      modifies this
      ensures Valid()
      ensures ConfigOf(configs, g) == ConfigOf(old(configs), g).(alerts := NwsConfig.RemoveAlert(ConfigOf(old(configs), g).alerts, name))
      ensures name !in ConfigOf(old(configs), g).alerts || IsProtected(name) ==> configs == old(configs)
      ensures forall h :: h != g ==> (h in configs <==> h in old(configs)) && (h in configs ==> configs[h] == old(configs)[h])
      ensures reply == if name in ConfigOf(old(configs), g).alerts && !IsProtected(name) then "Alert '" + name + "' removed."
                       else "You can't remove default alerts or it wasn't in the list."
      ensures State() == old(State()) && effects == old(effects)
    {
      var c := ConfigOf(configs, g);
      if name in c.alerts && !IsProtected(name) {
        RemoveAlertKeepsWellFormed(c, name);
        configs := configs[g := c.(alerts := RemoveFirst(c.alerts, name))];
        reply := "Alert '" + name + "' removed.";
      } else {
        reply := "You can't remove default alerts or it wasn't in the list.";
      }
    }

    /** `weather toggle`. */
    method Toggle(g: GuildId) returns (reply: string)
      requires Valid()
      modifies this
      ensures Valid()
      ensures g in configs && configs[g] == ConfigOf(old(configs), g).(enabled := !ConfigOf(old(configs), g).enabled)
      ensures forall h :: h != g ==> (h in configs <==> h in old(configs)) && (h in configs ==> configs[h] == old(configs)[h])
      ensures reply == if configs[g].enabled then "Weather alerts enabled." else "Weather alerts disabled."
      ensures State() == old(State()) && effects == old(effects)
    {
      var c := ConfigOf(configs, g);
      var current := c.enabled;
      configs := configs[g := c.(enabled := !current)];
      reply := "Weather alerts " + (if !current then "enabled" else "disabled") + ".";
    }
  }
}

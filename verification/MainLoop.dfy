/** `run` as src/dunst.c executes it, on the queues object and the GLib timeout sources. */
module MainLoop {
  import opened Notifications
  import Daemon
  import QueueManager

  class Loop {
    const queues: QueueManager.Manager
    var status: Status
    var now: int
    var timers: map<nat, int>
    var nextTimeoutId: nat
    var lastSource: nat

    ghost function State(): Daemon.State
      reads this, queues
    {
      Daemon.State(now, queues.State(), timers, nextTimeoutId, lastSource)
    }

    constructor (queues: QueueManager.Manager, now: int)
      ensures this.queues == queues && this.now == now
      ensures timers == map[] && nextTimeoutId == 0 && lastSource == 0
    {
      this.queues := queues;
      this.now := now;
      status := Status(false, 0, false, false);
      timers, nextTimeoutId, lastSource := map[], 0, 0;
    }

    /** `g_timeout_add` */
    method AddTimeout(delay: int) returns (id: nat)
      modifies this`timers, this`lastSource
      ensures id == lastSource == old(lastSource) + 1 && timers == old(timers)[id := now + delay]
    {
      lastSource := lastSource + 1;
      id := lastSource;
      timers := timers[id := now + delay];
    }

    /** `run`. The windowing system reports `fullscreen` and `idle`; `clock` is what the
        update reads, `later` what the second reading shows. A dispatched source is removed
        on return. */
    method Run(cfg: Settings, fired: Option<nat>, fullscreen: bool, idle: bool, clock: nat -> int, later: int)
      modifies this, queues
      ensures status == old(status).(fullscreen := fullscreen, idle := idle)
      ensures State() == Daemon.AfterRun(cfg, status, clock, later, fired, old(State()))
    {
      status := status.(fullscreen := fullscreen);
      status := status.(idle := idle);
      queues.UpdateQueues(cfg, status, now, clock);
      SetTimer(cfg, later, fired);
    }

    /** The timer handling of `run`. */
    method SetTimer(cfg: Settings, later: int, fired: Option<nat>)
      modifies this
      ensures status == old(status)
      ensures State() == Daemon.SetTimer(cfg, later, fired, old(State()))
    {
      var time := now;
      if fired.None? && nextTimeoutId != 0 {
        timers := timers - {nextTimeoutId};
      }
      nextTimeoutId := 0;
      if |queues.displayed| == 0 {
        now := later;
        timers := timers - (if fired.Some? then {fired.value} else {});
        return;
      }
      var timeoutAt := queues.GetNextDatachange(cfg, time);
      now := later;
      if timeoutAt != -1 {
        var sleep := timeoutAt - now;
        sleep := if sleep < 1000 then 1000 else sleep;
        nextTimeoutId := AddTimeout(sleep / 1000 * 1000);
      }
      timers := timers - (if fired.Some? then {fired.value} else {});
    }
  }
}

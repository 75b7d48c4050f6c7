/** The loading overlay: a 1500 ms "ready" timer, a 3000 ms idle timer that
    offers "Continue anyway", and an exit path that hides the overlay and
    calls `onReady` 400 ms later. Time is a millisecond clock; a timer is a
    pending due time, and its callback is an event that may run at or after
    that time. */
module LoadingOverlay {
  import opened Util

  const ReadyDelay := 1500
  const IdleDelay := 3000
  const ExitDelay := 400

  /** A pending idle timer, with the value of `isReady` its callback closed
      over when the effect armed it. */
  datatype IdleTimer = IdleTimer(due: int, sawReady: bool)

  /** What the overlay renders: nothing once it is exiting, otherwise the
      loading card, with the idle message and its button when shown. */
  datatype View = Nothing | Card(continueButton: bool)

  class Overlay {
    const mountAt: int
    var now: int
    var isReady: bool
    var showIdleState: bool
    var isExiting: bool
    var readyTimer: Option<int>
    var idleTimer: Option<IdleTimer>
    var exitTimer: Option<int>
    var mounted: bool
    /** How many times the `onReady` callback has run. */
    var onReadyCalls: nat
    /** When the exit path ran, if it has. */
    ghost var exitStartedAt: Option<int>

    ghost predicate Valid()
      reads this
    {
      // the load timer is pending until it fires
      (mounted ==> (readyTimer.Some? <==> !isReady))
      && (readyTimer.Some? ==> readyTimer.value == mountAt + ReadyDelay)
      // before ready, the idle timer is the one armed at mount, if not yet fired
      && (!isReady ==> idleTimer.None? || idleTimer.value == IdleTimer(mountAt + IdleDelay, false))
      && (idleTimer.Some? ==> (idleTimer.value.sawReady <==> isReady))
      // the auto-exit effect has run once ready
      && (isReady ==> isExiting)
      && (isExiting <==> exitStartedAt.Some?)
      && (exitTimer.Some? ==> isExiting && onReadyCalls == 0 && exitTimer.value == exitStartedAt.value + ExitDelay)
      && (onReadyCalls > 0 ==> isExiting && exitTimer.None?)
      && onReadyCalls <= 1
      // unmounting clears the effects' timers; the exit timer has no cleanup
      && (!mounted ==> readyTimer.None? && idleTimer.None?)
    }

    /** Mounting at `mountAt` arms the load timer and the first idle timer. */
    constructor (mountAt: int)
      ensures Valid() && mounted
      ensures this.mountAt == mountAt && now == mountAt
      ensures !isReady && !showIdleState && !isExiting && onReadyCalls == 0
      ensures readyTimer == Some(mountAt + ReadyDelay)
      ensures idleTimer == Some(IdleTimer(mountAt + IdleDelay, false))
      ensures exitTimer == None
    {
      this.mountAt := mountAt;
      now := mountAt;
      isReady := false;
      showIdleState := false;
      isExiting := false;
      readyTimer := Some(mountAt + ReadyDelay);
      idleTimer := Some(IdleTimer(mountAt + IdleDelay, false));
      exitTimer := None;
      mounted := true;
      onReadyCalls := 0;
      exitStartedAt := None;
    }

    /** `handleExit`: mark the overlay as exiting and schedule `onReady` 400 ms
        from now. */
    method HandleExit()
      requires Valid() && mounted && !isExiting
      modifies this
      ensures Valid() && mounted
      ensures isExiting && exitTimer == Some(now + ExitDelay) && exitStartedAt == Some(now)
      ensures now == old(now) && isReady == old(isReady) && showIdleState == old(showIdleState)
      ensures readyTimer == old(readyTimer) && idleTimer == old(idleTimer) && onReadyCalls == old(onReadyCalls)
    {
      isExiting := true;
      exitTimer := Some(now + ExitDelay);
      exitStartedAt := Some(now);
    }

    /** The load timer fires at `t`: the overlay becomes ready, the idle
        effect re-arms its timer with a callback that saw `isReady` true, and
        the auto-exit effect runs the exit path unless it already ran. */
    method FireReadyTimer(t: int)
      requires Valid() && mounted
      requires readyTimer.Some? && readyTimer.value <= t && now <= t
      modifies this
      ensures Valid() && mounted && now == t
      ensures isReady && readyTimer == None
      ensures idleTimer == Some(IdleTimer(t + IdleDelay, true))
      ensures isExiting
      ensures !old(isExiting) ==> exitTimer == Some(t + ExitDelay) && exitStartedAt == Some(t)
      ensures old(isExiting) ==> exitTimer == old(exitTimer) && exitStartedAt == old(exitStartedAt)
      ensures showIdleState == old(showIdleState) && onReadyCalls == old(onReadyCalls)
    {
      now := t;
      if !isExiting {
        HandleExit();
      }
      isReady := true;
      readyTimer := None;
      idleTimer := Some(IdleTimer(t + IdleDelay, true));
    }

    /** The idle timer fires at `t`: its callback shows the idle message only
        if it was armed while not ready. The message can therefore appear only
        when the load timer, due 1500 ms earlier, has not yet run. */
    method FireIdleTimer(t: int)
      requires Valid() && mounted
      requires idleTimer.Some? && idleTimer.value.due <= t && now <= t
      modifies this
      ensures Valid() && mounted && now == t
      ensures idleTimer == None
      ensures showIdleState == (old(showIdleState) || !old(idleTimer).value.sawReady)
      ensures showIdleState && !old(showIdleState) ==>
        !isReady && readyTimer == Some(mountAt + ReadyDelay) && t >= mountAt + ReadyDelay + (IdleDelay - ReadyDelay)
      ensures isReady == old(isReady) && isExiting == old(isExiting) && readyTimer == old(readyTimer)
      ensures exitTimer == old(exitTimer) && exitStartedAt == old(exitStartedAt) && onReadyCalls == old(onReadyCalls)
    {
      now := t;
      if !idleTimer.value.sawReady {
        showIdleState := true;
      }
      idleTimer := None;
    }

    /** A click on "Continue anyway" at `t`. The button is on screen only
        while the idle message is shown and the overlay is not exiting; there
        it takes the same exit path as the auto-exit. */
    method ClickContinue(t: int) returns (handled: bool)
      requires Valid() && mounted && now <= t
      modifies this
      ensures Valid() && mounted && now == t
      ensures handled <==> old(showIdleState && !isExiting)
      ensures handled ==> isExiting && exitTimer == Some(t + ExitDelay) && exitStartedAt == Some(t)
      ensures !handled ==> isExiting == old(isExiting) && exitTimer == old(exitTimer) && exitStartedAt == old(exitStartedAt)
      ensures isReady == old(isReady) && showIdleState == old(showIdleState)
      ensures readyTimer == old(readyTimer) && idleTimer == old(idleTimer) && onReadyCalls == old(onReadyCalls)
    {
      now := t;
      handled := Render() == Card(true);
      if handled {
        HandleExit();
      }
    }

    /** The exit timer fires at `t`: `onReady` runs, once and 400 ms or more
        after the exit path started. Nothing clears this timer, so it fires
        whether or not the overlay is still mounted. */
    method FireExitTimer(t: int)
      requires Valid()
      requires exitTimer.Some? && exitTimer.value <= t && now <= t
      modifies this
      ensures Valid() && mounted == old(mounted) && now == t
      ensures onReadyCalls == 1 && old(onReadyCalls) == 0
      ensures exitTimer == None && t >= exitStartedAt.value + ExitDelay
      ensures isReady == old(isReady) && showIdleState == old(showIdleState) && isExiting == old(isExiting)
      ensures readyTimer == old(readyTimer) && idleTimer == old(idleTimer) && exitStartedAt == old(exitStartedAt)
    {
      now := t;
      exitTimer := None;
      onReadyCalls := onReadyCalls + 1;
    }

    /** The parent stops rendering the overlay at `t`: the effects' cleanups
        clear the load and idle timers; the exit timer stays pending. */
    method Unmount(t: int)
      requires Valid() && mounted && now <= t
      modifies this
      ensures Valid() && !mounted && now == t
      ensures readyTimer == None && idleTimer == None && exitTimer == old(exitTimer)
      ensures isReady == old(isReady) && showIdleState == old(showIdleState) && isExiting == old(isExiting)
      ensures onReadyCalls == old(onReadyCalls) && exitStartedAt == old(exitStartedAt)
    {
      now := t;
      mounted := false;
      readyTimer := None;
      idleTimer := None;
    }

    function Render(): (v: View)
      reads this
      ensures v == Nothing <==> isExiting
      ensures v == Card(true) <==> showIdleState && !isExiting
    {
      if isExiting then Nothing else Card(showIdleState)
    }
  }

  /** With the events in the order their due times give (load timer at
      mount + 1500, exit timer 400 ms later), `onReady` runs 1900 ms after
      mount and the idle message never appears. */
  method OnTime(mountAt: int) returns (o: Overlay)
    ensures o.Valid() && o.mounted && fresh(o)
    ensures o.onReadyCalls == 1 && o.now == mountAt + ReadyDelay + ExitDelay
    ensures !o.showIdleState && o.isExiting && o.Render() == Nothing
  {
    o := new Overlay(mountAt);
    o.FireReadyTimer(mountAt + ReadyDelay);
    o.FireExitTimer(mountAt + ReadyDelay + ExitDelay);
  }
}

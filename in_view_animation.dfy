/**
 * `useInViewAnimation`: an element becomes active when it scrolls into view,
 * at once or after `delayMs` through a timer. The hook's effect creates an
 * intersection observer whenever its dependencies change (the element, the
 * options, `isActive`) unless there is no element or a `once` animation is
 * already active; its cleanup disconnects the observer and clears the
 * pending timer. Each observer callback is one entry; the re-render a
 * changed `isActive` causes runs right after it. Timer ids are supplied by
 * the caller in place of `window.setTimeout`.
 */
module InViewAnimation {
  import opened Wrappers

  /** The timer `timeoutRef` names, as a set. */
  function RefSet(timeoutRef: Option<int>): set<int> {
    if timeoutRef.Some? then {timeoutRef.value} else {}
  }

  class InViewAnimationState {
    const once: bool
    const delayMs: int
    var hasNode: bool
    var isActive: bool
    /** The last effect run created an observer, so its cleanup is pending. */
    var mounted: bool
    /** That observer is still connected. */
    var observing: bool
    var timeoutRef: Option<int>
    /** The timers scheduled and neither fired nor cleared. */
    var liveTimers: set<int>

    /** Only a connected observer or a live timer can act, and at most one
        timer is pending: the one `timeoutRef` names. */
    ghost predicate Wired()
      reads this
    {
      (observing ==> mounted) && (mounted ==> hasNode)
      && liveTimers <= RefSet(timeoutRef)
      && (!mounted ==> liveTimers == {})
    }

    /** Besides, an active `once` animation has no observer and no timer. */
    ghost predicate Valid()
      reads this
    {
      Wired() && (once && isActive ==> !mounted && !observing)
    }

    /** The hook's first render: no element yet, so the effect does nothing. */
    constructor (once: bool, delayMs: int)
      ensures Valid()
      ensures this.once == once && this.delayMs == delayMs
      ensures !hasNode && !isActive && !mounted && !observing && timeoutRef == None && liveTimers == {}
    {
      this.once := once;
      this.delayMs := delayMs;
      hasNode := false;
      isActive := false;
      mounted := false;
      observing := false;
      timeoutRef := None;
      liveTimers := {};
    }

    /** The effect's cleanup (when the last run created an observer) followed
        by a new run. */
    method Rerun()
      requires Wired()
      modifies this
      ensures Valid()
      ensures mounted == (hasNode && !(once && isActive)) && observing == mounted
      ensures old(mounted) ==> timeoutRef == None && liveTimers == {}
      ensures !old(mounted) ==> timeoutRef == old(timeoutRef) && liveTimers == old(liveTimers)
      ensures hasNode == old(hasNode) && isActive == old(isActive)
    {
      if mounted {
        observing := false;
        if timeoutRef.Some? {
          liveTimers := liveTimers - {timeoutRef.value};
          timeoutRef := None;
        }
        mounted := false;
      }
      if hasNode && !(once && isActive) {
        mounted := true;
        observing := true;
      }
    }

    /** The `ref` callback receives the element. */
    method AttachNode()
      requires Valid() && !hasNode
      modifies this
      ensures Valid()
      ensures hasNode && isActive == old(isActive)
      ensures observing == !(once && isActive) && mounted == observing
      ensures timeoutRef == old(timeoutRef) && liveTimers == old(liveTimers)
    {
      hasNode := true;
      Rerun();
    }

    /** `activate`: the element becomes active, the observer is disconnected
        for a `once` animation, and a change of `isActive` re-runs the effect. */
    method Activate()
      requires Wired() && mounted && !(once && isActive)
      modifies this
      ensures Valid()
      ensures isActive && hasNode == old(hasNode)
      ensures once ==> !mounted && !observing && timeoutRef == None && liveTimers == {}
      ensures !once && !old(isActive) ==>
        mounted == hasNode && observing == hasNode && timeoutRef == None && liveTimers == {}
      ensures !once && old(isActive) ==>
        mounted == old(mounted) && observing == old(observing)
        && timeoutRef == old(timeoutRef) && liveTimers == old(liveTimers)
    {
      var wasActive := isActive;
      isActive := true;
      if once {
        observing := false;
      }
      if !wasActive {
        Rerun();
      }
    }

    /** The observer reports the element in view: a pending timer is cleared,
        then the element activates at once for a non-positive delay, or one
        timer is scheduled. */
    method OnIntersect(timerId: int)
      requires Valid() && observing
      modifies this
      ensures Valid()
      ensures delayMs > 0 ==>
        timeoutRef == Some(timerId) && liveTimers == {timerId}
        && isActive == old(isActive) && observing && mounted
      ensures delayMs <= 0 ==> isActive && timeoutRef == None && liveTimers == {}
      ensures delayMs <= 0 && once ==> !observing && !mounted
      ensures delayMs <= 0 && !once ==> observing && mounted
      ensures hasNode == old(hasNode)
    {
      if timeoutRef.Some? {
        liveTimers := liveTimers - {timeoutRef.value};
        timeoutRef := None;
      }
      if delayMs > 0 {
        timeoutRef := Some(timerId);
        liveTimers := liveTimers + {timerId};
      } else {
        Activate();
      }
    }

    /** The observer reports the element out of view: without `once` the
        timer is cleared and the element becomes inactive; with `once` only
        the pending timer is cleared. */
    method OnLeave()
      requires Valid() && observing
      modifies this
      ensures Valid()
      ensures timeoutRef == None && liveTimers == {} && observing && mounted
      ensures !once ==> !isActive
      ensures once ==> isActive == old(isActive)
      ensures hasNode == old(hasNode)
    {
      if timeoutRef.Some? {
        liveTimers := liveTimers - {timeoutRef.value};
        timeoutRef := None;
      }
      if !once {
        var wasActive := isActive;
        isActive := false;
        if wasActive {
          Rerun();
        }
      }
    }

    /** A pending timer fires and runs `activate`; `timeoutRef` keeps its id. */
    method TimerFires(timerId: int)
      requires Valid() && timerId in liveTimers
      modifies this
      ensures Valid()
      ensures isActive && hasNode == old(hasNode) && liveTimers == {}
      ensures once ==> !mounted && !observing && timeoutRef == None
      ensures !once && !old(isActive) ==> mounted == hasNode && observing == hasNode && timeoutRef == None
      ensures !once && old(isActive) ==>
        mounted == old(mounted) && observing == old(observing) && timeoutRef == old(timeoutRef)
    {
      liveTimers := liveTimers - {timerId};
      Activate();
    }

    /** Unmounting: the cleanup disconnects the observer and clears the timer. */
    method Teardown()
      requires Valid()
      modifies this
      ensures !observing && !mounted && liveTimers == {}
      ensures isActive == old(isActive) && hasNode == old(hasNode)
      ensures old(mounted) ==> timeoutRef == None
      ensures !old(mounted) ==> timeoutRef == old(timeoutRef)
    {
      if mounted {
        observing := false;
        if timeoutRef.Some? {
          liveTimers := liveTimers - {timeoutRef.value};
          timeoutRef := None;
        }
        mounted := false;
      }
    }
  }

  /** A delayed `once` animation: in view, the timer fires, and from then on
      the element stays active with no observer left to change it. */
  method DelayedOnceActivation(state: InViewAnimationState, timerId: int)
    requires state.Valid() && state.observing && state.once && state.delayMs > 0
    modifies state
    ensures state.Valid() && state.isActive && !state.observing && state.liveTimers == {}
  {
    state.OnIntersect(timerId);
    state.TimerFires(timerId);
  }
}

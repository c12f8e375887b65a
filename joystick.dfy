/**
 The `VirtualJoystick` component as an object whose handlers update its
 state in place: `activeDirection`, the interval slot `intervalRef` and the
 values passed to the optional `onDirectionChange` observer. The host's
 interval table, which `setInterval` and `clearInterval` act on, is a
 second object. Every handler is proved against `JoystickMachine.Next` and
 `JoystickMachine.Emits`, and the object records the inputs it has had: its
 invariant says that its state is `Final` of them from mount and that the
 observer has heard `Trace` of them, so the lemmas of that module about
 runs apply to the object's own history.
 */
module VirtualJoystick {
  import opened JoystickMachine

  /** The host's intervals: which handles still run, and with what callback
      (the direction it captured). */
  class Timers {
    var live: map<Handle, Direction>
    var issued: nat

    constructor ()
      ensures live == map[] && issued == 0
    {
      live := map[];
      issued := 0;
    }

    /** `setInterval`: start a new interval under a fresh handle. */
    method SetInterval(d: Direction) returns (h: Handle)
      modifies this
      ensures h == old(issued) && issued == old(issued) + 1
      ensures live == old(live)[h := d]
    {
      h := issued;
      live := live[h := d];
      issued := issued + 1;
    }

    /** `clearInterval`: the interval h, if it runs, never fires again;
        every other interval runs on. */
    method ClearInterval(h: Handle)
      modifies this`live
      ensures live == old(live) - {h}
    {
      live := live - {h};
    }
  }

  class Joystick {
    /** `activeDirection`. */
    var active: Signal
    /** `intervalRef.current`. */
    var ref: Option<Handle>
    /** The unmount cleanup has run. */
    ghost var torn: bool
    /** Every input the component has had since mount, oldest first. */
    ghost var inputs: seq<Input>
    /** Every value handed to `onDirectionChange`, oldest first. */
    var log: seq<Signal>
    /** Whether an `onDirectionChange` observer was given; without one,
        emissions are dropped and nothing else changes. */
    const observed: bool
    /** The host's interval table. */
    const timers: Timers

    /** The controller state, as a value of the machine model. */
    ghost function State(): Machine
      reads this, timers
    {
      Machine(active, ref, timers.live, timers.issued, torn)
    }

    /** What the observer receives of a list of emissions. */
    function Heard(sigs: seq<Signal>): seq<Signal>
    {
      if observed then sigs else []
    }

    ghost predicate Valid()
      reads this, timers
    {
      && Consistent(State())
      && State() == Final(Idle, inputs)
      && log == Heard(Trace(Idle, inputs))
    }

    /** Mounting: nothing active, a null ref, no interval, nothing emitted. */
    constructor (observed: bool)
      ensures Valid() && this.observed == observed && fresh(timers)
      ensures State() == Idle && log == [] && inputs == []
    {
      inputs := [];
      active := None;
      ref := None;
      torn := false;
      log := [];
      this.observed := observed;
      timers := new Timers();
    }

    /** `onDirectionChange?.(s)`. */
    method Emit(s: Signal)
      modifies this`log
      ensures log == old(log) + Heard([s])
    {
      if observed {
        log := log + [s];
      }
    }

    /** `handlePress(d)`: highlight d, emit it once, stop the interval the
        ref holds and store a new one that repeats d. */
    method Press(d: Direction)
      requires Valid()
      modifies this, timers
      ensures Valid()
      ensures active == Some(d) && ref == Some(old(timers.issued)) && torn == old(torn)
      ensures timers.live == map[old(timers.issued) := d]
      ensures log == old(log) + Heard([Some(d)])
      ensures State() == Next(old(State()), Input.Press(d))
      ensures log == old(log) + Heard(Emits(old(State()), Input.Press(d)))
      ensures inputs == old(inputs) + [Input.Press(d)]
    {
      RunSnoc(Idle, inputs, Input.Press(d));
      PressRestartsTimer(State(), d);
      active := Some(d);
      Emit(Some(d));
      if ref.Some? {
        timers.ClearInterval(ref.value);
      }
      var h := timers.SetInterval(d);
      ref := Some(h);
      inputs := inputs + [Input.Press(d)];
    }

    /** `handleRelease()`: clear the highlight, emit null once, and stop
        the interval the ref holds and null the ref, if it holds one. */
    method Release()
      requires Valid()
      modifies this, timers
      ensures Valid()
      ensures active == None && ref == None && timers.live == map[] && torn == old(torn)
      ensures timers.issued == old(timers.issued)
      ensures log == old(log) + Heard([None])
      ensures State() == Next(old(State()), Input.Release)
      ensures log == old(log) + Heard(Emits(old(State()), Input.Release))
      ensures inputs == old(inputs) + [Input.Release]
    {
      RunSnoc(Idle, inputs, Input.Release);
      ReleaseStopsTimer(State());
      active := None;
      Emit(None);
      if ref.Some? {
        timers.ClearInterval(ref.value);
        ref := None;
      }
      inputs := inputs + [Input.Release];
    }

    /** The host fires the interval h once: if it still runs, its callback
        emits the direction it captured, not the one `active` holds now. */
    method Tick(h: Handle)
      requires Valid()
      modifies this
      ensures Valid()
      ensures active == old(active) && ref == old(ref) && torn == old(torn)
      ensures log == old(log) + Heard(if h in timers.live then [Some(timers.live[h])] else [])
      ensures State() == Next(old(State()), Input.Tick(h))
      ensures log == old(log) + Heard(Emits(old(State()), Input.Tick(h)))
      ensures inputs == old(inputs) + [Input.Tick(h)]
    {
      RunSnoc(Idle, inputs, Input.Tick(h));
      if h in timers.live {
        Emit(Some(timers.live[h]));
      }
      inputs := inputs + [Input.Tick(h)];
    }

    /** The unmount cleanup: stop the interval the ref holds, emit nothing,
        leave `active` and the ref as they are. */
    method Teardown()
      requires Valid()
      modifies this, timers
      ensures Valid()
      ensures active == old(active) && ref == old(ref) && torn
      ensures timers.live == map[] && timers.issued == old(timers.issued)
      ensures log == old(log)
      ensures State() == Next(old(State()), Input.Teardown)
      ensures log == old(log) + Heard(Emits(old(State()), Input.Teardown))
      ensures inputs == old(inputs) + [Input.Teardown]
    {
      RunSnoc(Idle, inputs, Input.Teardown);
      TeardownStopsTimers(State());
      if ref.Some? {
        timers.ClearInterval(ref.value);
      }
      torn := true;
      inputs := inputs + [Input.Teardown];
    }

    /** A DOM event on the button of `zone`, handed to the handler the
        button attaches to it. */
    method Dispatch(zone: Direction, e: DomEvent)
      requires Valid()
      modifies this, timers
      ensures Valid()
      ensures State() == Next(old(State()), Route(zone, e))
      ensures log == old(log) + Heard(Emits(old(State()), Route(zone, e)))
      ensures inputs == old(inputs) + [Route(zone, e)]
    {
      var i := Route(zone, e);
      if i.Press? {
        Press(i.zone);
      } else {
        Release();
      }
    }
  }

  /** A press on the up button by touch, two firings of its interval, the
      finger lifting, then one more firing: the observer hears up three
      times, then null, and no interval is left running. */
  method HoldUpByTouch() returns (heard: seq<Signal>, running: map<Handle, Direction>)
    ensures heard == [Some(Up), Some(Up), Some(Up), None]
    ensures running == map[]
  {
    var pad := new Joystick(true);
    pad.Dispatch(Up, TouchStart);
    var h := pad.ref.value;
    pad.Tick(h);
    pad.Tick(h);
    pad.Dispatch(Up, TouchEnd);
    pad.Tick(h);
    heard := pad.log;
    running := pad.timers.live;
  }
}

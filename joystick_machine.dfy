/**
 The press/hold/repeat state machine of the virtual joystick, as values.

 A `Machine` is the controller's state together with the host's interval
 table: the highlighted direction, the handle held in `intervalRef`, the
 intervals the host still runs (each with the direction its callback
 captured) and whether the component has been unmounted. `Next` and `Emits`
 give, for one input, the new state and the values handed to the
 `onDirectionChange` observer. Time is a count of `Tick` inputs, each one
 firing of one interval.
 */
module JoystickMachine {

  datatype Option<+T> = None | Some(value: T)

  /** The four zones of the pad. */
  datatype Direction = Up | Down | Left | Right

  /** A value passed to the observer: a direction, or `None` for null. */
  type Signal = Option<Direction>

  /** A handle returned by `setInterval`. */
  type Handle = nat

  /** What can happen to the controller. */
  datatype Input =
    | Press(zone: Direction)   // handlePress(zone)
    | Release                  // handleRelease()
    | Tick(handle: Handle)     // the host fires the interval with this handle once
    | Teardown                 // the unmount cleanup of the effect

  /** The DOM events each button listens to. */
  datatype DomEvent = TouchStart | TouchEnd | MouseDown | MouseUp | MouseLeave

  /**
   active: the `activeDirection` state.
   ref:    `intervalRef.current`, the last handle stored there (`None` for null).
   live:   the intervals the host still runs, by handle, each with the
           direction its callback captured.
   issued: the number of handles the host has given out; handles are
           0, 1, 2, ... in order, so `issued` is the next one.
   torn:   the cleanup has run.
   */
  datatype Machine = Machine(
    active: Signal,
    ref: Option<Handle>,
    live: map<Handle, Direction>,
    issued: nat,
    torn: bool)

  /** The state at mount: nothing pressed, a null ref, no interval. */
  const Idle := Machine(None, None, map[], 0, false)

  /** The handler a button attaches to each of its events. */
  function Route(zone: Direction, e: DomEvent): (i: Input)
    ensures i == Press(zone) <==> (e == TouchStart || e == MouseDown)
    ensures i != Press(zone) ==> i == Release
  {
    match e
    case TouchStart => Press(zone)
    case MouseDown => Press(zone)
    case TouchEnd => Release
    case MouseUp => Release
    case MouseLeave => Release
  }

  /** `if (intervalRef.current) clearInterval(intervalRef.current)`: the
      interval the ref holds stops; every other interval runs on. */
  function Cancel(live: map<Handle, Direction>, ref: Option<Handle>): (r: map<Handle, Direction>)
    ensures forall h :: h in r <==> h in live && ref != Some(h)
    ensures forall h :: h in r ==> r[h] == live[h]
  {
    match ref
    case Some(h) => live - {h}
    case None => live
  }

  /**
   The state after one input. A press highlights its zone and stores a fresh
   handle; a release nulls both; a firing changes nothing; the cleanup only
   sets the flag. Every input but a firing stops the interval the ref holds
   and no other, and only a press starts one.
   */
  function Next(m: Machine, i: Input): (r: Machine)
    ensures i.Tick? ==> r == m
    ensures r.torn == (m.torn || i.Teardown?)
    ensures i.Press? ==> r.active == Some(i.zone) && r.ref == Some(m.issued) && r.issued == m.issued + 1
    ensures i.Press? ==> m.issued in r.live && r.live[m.issued] == i.zone
    ensures i.Release? ==> r.active == None && r.ref == None && r.issued == m.issued
    ensures i.Teardown? ==> r.active == m.active && r.ref == m.ref && r.issued == m.issued
    ensures !i.Tick? ==> forall h :: h in r.live ==>
      || (h in m.live && m.ref != Some(h) && r.live[h] == m.live[h])
      || (i.Press? && h == m.issued)
    ensures !i.Tick? ==> forall h :: h in m.live && m.ref != Some(h) ==> h in r.live
  {
    match i
    case Press(d) =>
      m.(active := Some(d),
         live := Cancel(m.live, m.ref)[m.issued := d],
         ref := Some(m.issued),
         issued := m.issued + 1)
    case Release => m.(active := None, live := Cancel(m.live, m.ref), ref := None)
    case Tick(_) => m
    case Teardown => m.(live := Cancel(m.live, m.ref), torn := true)
  }

  /** What one input hands to the observer, in order: at most one value;
      null exactly on a release; a direction only from a press of it or from
      a firing of an interval that runs and captured it. */
  function Emits(m: Machine, i: Input): (r: seq<Signal>)
    ensures |r| <= 1
    ensures None in r <==> i.Release?
    ensures forall s :: s in r && s.Some? ==>
      || (i.Press? && s.value == i.zone)
      || (i.Tick? && i.handle in m.live && s.value == m.live[i.handle])
    ensures r == [] <==> i.Teardown? || (i.Tick? && i.handle !in m.live)
  {
    match i
    case Press(d) => [Some(d)]
    case Release => [None]
    case Tick(h) => if h in m.live then [Some(m.live[h])] else []
    case Teardown => []
  }

  /** The state after a sequence of inputs. */
  function Final(m: Machine, ins: seq<Input>): Machine
    decreases |ins|
  {
    if ins == [] then m else Final(Next(m, ins[0]), ins[1..])
  }

  /** Everything the observer receives during a sequence of inputs. */
  function Trace(m: Machine, ins: seq<Input>): seq<Signal>
    decreases |ins|
  {
    if ins == [] then [] else Emits(m, ins[0]) + Trace(Next(m, ins[0]), ins[1..])
  }

  /** n firings of the interval with handle h and nothing else. */
  function Ticks(h: Handle, n: nat): seq<Input>
  {
    if n == 0 then [] else [Tick(h)] + Ticks(h, n - 1)
  }

  /** n copies of one signal. */
  function Copies(s: Signal, n: nat): seq<Signal>
  {
    if n == 0 then [] else [s] + Copies(s, n - 1)
  }

  /** A sequence of interval firings only. */
  ghost predicate OnlyTicks(ins: seq<Input>)
  {
    forall k :: 0 <= k < |ins| ==> ins[k].Tick?
  }

  /**
   The consistency of the intervals with the highlight. Every live interval
   and the ref hold handles already given out, and either
   - no interval is live (and, before the cleanup, nothing is active and
     the ref is null), or
   - exactly one interval is live: the one the ref holds, repeating the
     active direction.
   After the cleanup the ref keeps its cleared handle and `active` keeps
   its value, so the first case only constrains them before it.
   */
  ghost predicate Consistent(m: Machine)
  {
    && (forall h :: h in m.live ==> h < m.issued)
    && (m.ref.Some? ==> m.ref.value < m.issued)
    && (|| (m.live == map[] && (!m.torn ==> m.active == None && m.ref == None))
        || (m.active.Some? && m.ref.Some? && m.live == map[m.ref.value := m.active.value]))
  }

  // ---------------------------------------------------------------------
  // One input at a time

  /** From a consistent state, Press(d) highlights d, emits d exactly once,
      stops the interval the ref held and leaves exactly one live interval:
      a fresh one, stored in the ref, carrying d. */
  lemma PressRestartsTimer(m: Machine, d: Direction)
    requires Consistent(m)
    ensures Next(m, Press(d)).active == Some(d)
    ensures m.issued !in m.live
    ensures Next(m, Press(d)).live == map[m.issued := d]
    ensures Next(m, Press(d)).ref == Some(m.issued)
    ensures m.ref.Some? ==> m.ref.value !in Next(m, Press(d)).live
    ensures Next(m, Press(d)).torn == m.torn
    ensures Emits(m, Press(d)) == [Some(d)]
  {
    assert Cancel(m.live, m.ref) == map[];
  }

  /** From a consistent state, Release clears the highlight and the ref,
      emits null exactly once and leaves no live interval. In any idle
      state before the cleanup it changes nothing and still emits null, and
      a second release changes nothing further. */
  lemma ReleaseStopsTimer(m: Machine)
    requires Consistent(m)
    ensures Next(m, Release).active == None && Next(m, Release).ref == None
    ensures Next(m, Release).live == map[]
    ensures Next(m, Release).torn == m.torn
    ensures Emits(m, Release) == [None]
    ensures m.active == None && !m.torn ==> Next(m, Release) == m
    ensures Next(Next(m, Release), Release) == Next(m, Release)
    ensures Next(Idle, Release) == Idle
  {
    assert Cancel(m.live, m.ref) == map[];
  }

  /** A firing emits the direction its interval captured, whatever `active`
      holds, and changes nothing; a handle that is not live emits nothing. */
  lemma TickEmitsCaptured(m: Machine, h: Handle)
    ensures Next(m, Tick(h)) == m
    ensures h in m.live ==> Emits(m, Tick(h)) == [Some(m.live[h])]
    ensures h !in m.live ==> Emits(m, Tick(h)) == []
  {
  }

  /** In a consistent state an interval keeps the direction it captured for
      as long as it runs, whatever the input; and a handle other than the
      one in the ref is silent when fired. */
  lemma IntervalKeepsCapture(m: Machine, i: Input, h: Handle)
    requires Consistent(m)
    ensures h in m.live && h in Next(m, i).live ==> Next(m, i).live[h] == m.live[h]
    ensures m.ref != Some(h) ==> Emits(m, Tick(h)) == []
  {
  }

  /** The cleanup emits nothing, keeps `active` and the ref, and stops the
      interval the ref holds; running it twice is the same as running it once. */
  lemma TeardownIdempotent(m: Machine)
    ensures Next(m, Teardown).torn
    ensures Next(m, Teardown).active == m.active && Next(m, Teardown).ref == m.ref
    ensures m.ref.Some? ==> m.ref.value !in Next(m, Teardown).live
    ensures Emits(m, Teardown) == []
    ensures Next(Next(m, Teardown), Teardown) == Next(m, Teardown)
    ensures Emits(Next(m, Teardown), Teardown) == []
  {
    assert Cancel(Cancel(m.live, m.ref), m.ref) == Cancel(m.live, m.ref);
  }

  /** From a consistent state, the cleanup leaves no live interval. */
  lemma TeardownStopsTimers(m: Machine)
    requires Consistent(m)
    ensures Next(m, Teardown).live == map[]
  {
    assert Cancel(m.live, m.ref) == map[];
  }

  /** Every input keeps the intervals consistent with the highlight; for a
      press this rests on the clearing of the old interval before the new
      one is stored. */
  lemma NextKeepsConsistent(m: Machine, i: Input)
    requires Consistent(m)
    ensures Consistent(Next(m, i))
  {
    if i.Press? || i.Release? || i.Teardown? {
      assert Cancel(m.live, m.ref) == map[];
    }
  }

  // ---------------------------------------------------------------------
  // Sequences of inputs

  /** Running a sequence starting with one input is that input, then the rest. */
  lemma RunCons(m: Machine, i: Input, rest: seq<Input>)
    ensures Final(m, [i] + rest) == Final(Next(m, i), rest)
    ensures Trace(m, [i] + rest) == Emits(m, i) + Trace(Next(m, i), rest)
  {
    assert ([i] + rest)[0] == i;
    assert ([i] + rest)[1..] == rest;
  }

  /** Running a concatenation is running each part in turn. */
  lemma {:induction false} RunAppend(m: Machine, xs: seq<Input>, ys: seq<Input>)
    ensures Final(m, xs + ys) == Final(Final(m, xs), ys)
    ensures Trace(m, xs + ys) == Trace(m, xs) + Trace(Final(m, xs), ys)
    decreases |xs|
  {
    if xs == [] {
      assert xs + ys == ys;
    } else {
      assert xs + ys == [xs[0]] + (xs[1..] + ys);
      assert xs == [xs[0]] + xs[1..];
      RunCons(m, xs[0], xs[1..] + ys);
      RunCons(m, xs[0], xs[1..]);
      RunAppend(Next(m, xs[0]), xs[1..], ys);
    }
  }

  /** Running a sequence extended by one input is running the sequence,
      then that input. */
  lemma RunSnoc(m: Machine, xs: seq<Input>, i: Input)
    ensures Final(m, xs + [i]) == Next(Final(m, xs), i)
    ensures Trace(m, xs + [i]) == Trace(m, xs) + Emits(Final(m, xs), i)
  {
    RunAppend(m, xs, [i]);
    RunCons(Final(m, xs), i, []);
  }

  /** Consistency holds after any sequence of inputs. */
  lemma {:induction false} FinalKeepsConsistent(m: Machine, ins: seq<Input>)
    requires Consistent(m)
    ensures Consistent(Final(m, ins))
    decreases |ins|
  {
    if ins != [] {
      NextKeepsConsistent(m, ins[0]);
      FinalKeepsConsistent(Next(m, ins[0]), ins[1..]);
    }
  }

  /** Without a cleanup, the torn flag never changes. */
  lemma {:induction false} NoTeardownKeepsTorn(m: Machine, ins: seq<Input>)
    requires Teardown !in ins
    ensures Final(m, ins).torn == m.torn
    decreases |ins|
  {
    if ins != [] {
      assert ins[0] in ins;
      assert forall k :: 0 <= k < |ins[1..]| ==> ins[1..][k] == ins[k + 1];
      assert Teardown !in ins[1..];
      NoTeardownKeepsTorn(Next(m, ins[0]), ins[1..]);
    }
  }

  /** Before the cleanup, in every state reachable from mount, an interval is
      live exactly when a direction is active; then it is the only live
      interval, the ref holds it and it repeats that direction, and otherwise
      the ref is null. */
  lemma LiveTimerIffActive(ins: seq<Input>)
    requires Teardown !in ins
    ensures Final(Idle, ins).live != map[] <==> Final(Idle, ins).active.Some?
    ensures Final(Idle, ins).active.Some? ==>
              Final(Idle, ins).ref.Some? &&
              Final(Idle, ins).live == map[Final(Idle, ins).ref.value := Final(Idle, ins).active.value]
    ensures Final(Idle, ins).active == None ==> Final(Idle, ins).ref == None
  {
    FinalKeepsConsistent(Idle, ins);
    NoTeardownKeepsTorn(Idle, ins);
    var f := Final(Idle, ins);
    if f.active.Some? {
      assert f.ref.value in f.live;
    }
  }

  /** Firings change no state. */
  lemma {:induction false} TicksKeepState(m: Machine, ins: seq<Input>)
    requires OnlyTicks(ins)
    ensures Final(m, ins) == m
    decreases |ins|
  {
    if ins != [] {
      assert ins[0].Tick?;
      assert OnlyTicks(ins[1..]) by {
        forall k | 0 <= k < |ins[1..]| ensures ins[1..][k].Tick? {
          assert ins[1..][k] == ins[k + 1];
        }
      }
      TicksKeepState(Next(m, ins[0]), ins[1..]);
    }
  }

  /** With no live interval, firings of any handles emit nothing. */
  lemma {:induction false} QuietTicks(m: Machine, ins: seq<Input>)
    requires m.live == map[]
    requires OnlyTicks(ins)
    ensures Trace(m, ins) == []
    ensures Final(m, ins) == m
    decreases |ins|
  {
    if ins != [] {
      assert ins[0].Tick?;
      assert OnlyTicks(ins[1..]) by {
        forall k | 0 <= k < |ins[1..]| ensures ins[1..][k].Tick? {
          assert ins[1..][k] == ins[k + 1];
        }
      }
      QuietTicks(Next(m, ins[0]), ins[1..]);
    }
  }

  /** While the interval h is live, n firings of it emit its captured
      direction n times and change nothing. */
  lemma {:induction false} HeldTicks(m: Machine, h: Handle, n: nat)
    requires h in m.live
    ensures Final(m, Ticks(h, n)) == m
    ensures Trace(m, Ticks(h, n)) == Copies(Some(m.live[h]), n)
    decreases n
  {
    if n > 0 {
      RunCons(m, Tick(h), Ticks(h, n - 1));
      HeldTicks(m, h, n - 1);
    }
  }

  /** Press(d) followed by n firings of its interval and nothing else emits
      exactly n + 1 copies of d and leaves d held. */
  lemma PressThenHold(m: Machine, d: Direction, n: nat)
    requires Consistent(m)
    ensures Trace(m, [Press(d)] + Ticks(m.issued, n)) == Copies(Some(d), n + 1)
    ensures Final(m, [Press(d)] + Ticks(m.issued, n)) == Next(m, Press(d))
  {
    RunCons(m, Press(d), Ticks(m.issued, n));
    PressRestartsTimer(m, d);
    HeldTicks(Next(m, Press(d)), m.issued, n);
  }

  /** After a release, no firing emits anything until the next press. */
  lemma ReleaseThenTicks(m: Machine, ins: seq<Input>)
    requires Consistent(m)
    requires OnlyTicks(ins)
    ensures Trace(m, [Release] + ins) == [None]
    ensures Final(m, [Release] + ins) == Next(m, Release)
    ensures Next(m, Release).live == map[]
  {
    RunCons(m, Release, ins);
    ReleaseStopsTimer(m);
    QuietTicks(Next(m, Release), ins);
  }

  /** Press(d) then release: the observer hears d then null, and nothing more
      however many firings follow. */
  lemma PressReleaseThenTicks(m: Machine, d: Direction, ins: seq<Input>)
    requires Consistent(m)
    requires OnlyTicks(ins)
    ensures Trace(m, [Press(d), Release] + ins) == [Some(d), None]
    ensures Final(m, [Press(d), Release] + ins).active == None
    ensures Final(m, [Press(d), Release] + ins).live == map[]
  {
    assert [Press(d), Release] + ins == [Press(d)] + ([Release] + ins);
    RunCons(m, Press(d), [Release] + ins);
    NextKeepsConsistent(m, Press(d));
    ReleaseThenTicks(Next(m, Press(d)), ins);
  }

  /** After the cleanup, no firing ever emits anything; no interval is live
      and the highlight stays as it was. */
  lemma TeardownThenTicks(m: Machine, ins: seq<Input>)
    requires Consistent(m)
    requires OnlyTicks(ins)
    ensures Trace(m, [Teardown] + ins) == []
    ensures Final(m, [Teardown] + ins) == Next(m, Teardown)
    ensures Next(m, Teardown).live == map[] && Next(m, Teardown).active == m.active
  {
    RunCons(m, Teardown, ins);
    TeardownStopsTimers(m);
    QuietTicks(Next(m, Teardown), ins);
  }

  /** Running the cleanup twice, followed by anything, is the same as running
      it once followed by the same inputs. */
  lemma TeardownTwiceIsOnce(m: Machine, ins: seq<Input>)
    ensures Final(m, [Teardown, Teardown] + ins) == Final(m, [Teardown] + ins)
    ensures Trace(m, [Teardown, Teardown] + ins) == Trace(m, [Teardown] + ins)
  {
    assert [Teardown, Teardown] + ins == [Teardown] + ([Teardown] + ins);
    RunCons(m, Teardown, [Teardown] + ins);
    RunCons(Next(m, Teardown), Teardown, ins);
    RunCons(m, Teardown, ins);
    TeardownIdempotent(m);
  }

  /** One input adds no direction to the live intervals or the emissions
      other than the one it presses. */
  lemma StepSources(m: Machine, i: Input, d: Direction)
    ensures d in Next(m, i).live.Values ==> d in m.live.Values || i == Press(d)
    ensures Some(d) in Emits(m, i) ==> d in m.live.Values || i == Press(d)
  {
    if d in Next(m, i).live.Values {
      var h :| h in Next(m, i).live && Next(m, i).live[h] == d;
      if !(i.Press? && h == m.issued) {
        assert h in m.live && m.live[h] == d;
      }
    }
  }

  /** Every direction the observer hears comes either from an interval live
      at the start or from a press of that direction in the sequence. */
  lemma {:induction false} TraceSources(m: Machine, ins: seq<Input>, d: Direction)
    requires Some(d) in Trace(m, ins)
    ensures d in m.live.Values || Press(d) in ins
    decreases |ins|
  {
    if ins != [] {
      var i := ins[0];
      assert i in ins;
      StepSources(m, i, d);
      if Some(d) !in Emits(m, i) {
        assert Some(d) in Trace(Next(m, i), ins[1..]);
        TraceSources(Next(m, i), ins[1..], d);
        if Press(d) in ins[1..] {
          var k :| 0 <= k < |ins[1..]| && ins[1..][k] == Press(d);
          assert ins[k + 1] == Press(d);
        }
      }
    }
  }

  /** Preemption: once Press(d') has happened in a consistent state, a
      different direction d is never emitted again unless d itself is
      pressed again: the interval that repeated d was stopped. */
  lemma Preemption(m: Machine, d: Direction, d': Direction, ins: seq<Input>)
    requires Consistent(m)
    requires d != d'
    requires Press(d) !in ins
    ensures Some(d) !in Trace(Next(m, Press(d')), ins)
  {
    PressRestartsTimer(m, d');
    assert Next(m, Press(d')).live.Values == {d'};
    if Some(d) in Trace(Next(m, Press(d')), ins) {
      TraceSources(Next(m, Press(d')), ins, d);
    }
  }

  /** Exclusivity: if the last press of a run is at index j and only
      firings follow it, then the highlight is that press's direction, the
      ref holds the only live interval, and that interval repeats it. */
  lemma LastPressWins(m: Machine, ins: seq<Input>, j: nat)
    requires Consistent(m)
    requires j < |ins| && ins[j].Press?
    requires forall k :: j < k < |ins| ==> ins[k].Tick?
    ensures Final(m, ins).active == Some(ins[j].zone)
    ensures Final(m, ins).ref.Some?
    ensures Final(m, ins).live == map[Final(m, ins).ref.value := ins[j].zone]
  {
    var before, after := ins[..j], ins[j + 1..];
    assert ins == before + ([ins[j]] + after);
    RunAppend(m, before, [ins[j]] + after);
    var s := Final(m, before);
    FinalKeepsConsistent(m, before);
    RunCons(s, ins[j], after);
    PressRestartsTimer(s, ins[j].zone);
    assert OnlyTicks(after) by {
      forall k | 0 <= k < |after| ensures after[k].Tick? {
        assert after[k] == ins[j + 1 + k];
      }
    }
    TicksKeepState(Next(s, ins[j]), after);
  }

  /** Two presses before any firing: the first is emitted once, then only
      the second is repeated, and the first press's interval never fires. */
  lemma PressPressThenHold(m: Machine, d: Direction, d': Direction, n: nat)
    requires Consistent(m)
    ensures Trace(m, [Press(d), Press(d')] + Ticks(m.issued + 1, n)) == [Some(d)] + Copies(Some(d'), n + 1)
    ensures Final(m, [Press(d), Press(d')] + Ticks(m.issued + 1, n)).active == Some(d')
    ensures Emits(Final(m, [Press(d), Press(d')]), Tick(m.issued)) == []
  {
    var rest := [Press(d')] + Ticks(m.issued + 1, n);
    assert [Press(d), Press(d')] + Ticks(m.issued + 1, n) == [Press(d)] + rest;
    RunCons(m, Press(d), rest);
    var held := Next(m, Press(d));
    NextKeepsConsistent(m, Press(d));
    PressThenHold(held, d', n);
    assert Trace(held, rest) == Copies(Some(d'), n + 1);
    assert [Press(d), Press(d')] == [Press(d)] + [Press(d')];
    RunCons(m, Press(d), [Press(d')]);
    RunCons(held, Press(d'), []);
    PressRestartsTimer(held, d');
  }

  // ---------------------------------------------------------------------
  // Scenarios

  /** Press up, two firings, release, one more firing: up three times, then
      null, and no interval is left. */
  lemma HoldUpScenario()
    ensures Trace(Idle, [Press(Up), Tick(0), Tick(0), Release, Tick(0)]) == [Some(Up), Some(Up), Some(Up), None]
    ensures Final(Idle, [Press(Up), Tick(0), Tick(0), Release, Tick(0)]).live == map[]
    ensures Final(Idle, [Press(Up), Tick(0), Tick(0), Release, Tick(0)]).active == None
  {
    var held := Next(Idle, Press(Up));
    var tail := [Release] + [Tick(0)];
    var ins := [Press(Up), Tick(0), Tick(0), Release, Tick(0)];
    assert ins == [Press(Up)] + (Ticks(0, 2) + tail);
    RunCons(Idle, Press(Up), Ticks(0, 2) + tail);
    RunAppend(held, Ticks(0, 2), tail);
    HeldTicks(held, 0, 2);
    assert Trace(held, Ticks(0, 2)) == [Some(Up), Some(Up)];
    assert OnlyTicks([Tick(0)]);
    ReleaseThenTicks(held, [Tick(0)]);
    assert Trace(held, tail) == [None];
    assert Trace(Idle, ins) == [Some(Up)] + ([Some(Up), Some(Up)] + [None]);
  }

  /** Release with no prior press: null once, no interval, no change. */
  lemma ReleaseFromIdleScenario()
    ensures Trace(Idle, [Release]) == [None]
    ensures Final(Idle, [Release]) == Idle
  {
    RunCons(Idle, Release, []);
  }

  /** Both modalities of every zone reach the same operations. */
  lemma ModalitiesConverge(zone: Direction)
    ensures Route(zone, TouchStart) == Route(zone, MouseDown) == Press(zone)
    ensures Route(zone, TouchEnd) == Route(zone, MouseUp) == Route(zone, MouseLeave) == Release
  {
  }
}

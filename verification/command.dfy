/** The operator's command state of the car controller (the five React state
    variables `direction`, `speed`, `headlightsOn`, `hornOn`, `battery`) and
    the pure transition each UI intent applies to it. */
module Command {

  /** The values the `direction` state can hold. The direction buttons pass
      only the four moving values; `Neutral` is the default and what Stop
      writes. */
  datatype Direction = Neutral | Forward | Reverse | Left | Right

  /** One complete snapshot of the command state. `speed` and `battery` are
      unbounded here: their ranges are properties of the reachable states. */
  datatype CommandState = CommandState(
    direction: Direction,
    speed: int,
    headlightsOn: bool,
    hornOn: bool,
    battery: int)

  const InitialSpeed: int := 50
  const InitialBattery: int := 85
  /** The `min` and `max` attributes of the speed slider. */
  const MinSpeed: int := 0
  const MaxSpeed: int := 100

  /** The `useState` defaults. */
  const Initial: CommandState :=
    CommandState(Neutral, InitialSpeed, false, false, InitialBattery)

  /** What holds in every reachable state: nothing ever writes `battery`,
      and `speed` is only written by Stop and by the bounded slider. */
  predicate Inv(s: CommandState) {
    && s.battery == InitialBattery
    && MinSpeed <= s.speed <= MaxSpeed
  }

  /** `handleMouseDown(d)`: writes the direction and nothing else. */
  function HandleMouseDown(s: CommandState, d: Direction): (r: CommandState)
    ensures r.direction == d
    ensures r.(direction := s.direction) == s
  {
    s.(direction := d)
  }

  /** `handleMouseUp`: releasing a direction button writes nothing, so the
      last commanded direction persists. */
  function HandleMouseUp(s: CommandState): (r: CommandState)
    ensures r == s
  {
    s
  }

  /** `stopCar`: Neutral and speed 0, written in the same handler so that they
      form one snapshot. */
  function StopCar(s: CommandState): (r: CommandState)
    ensures r.direction == Neutral && r.speed == 0
    ensures r.(direction := s.direction, speed := s.speed) == s
  {
    s.(direction := Neutral, speed := 0)
  }

  /** The horn button: `setHornOn(!hornOn)`. */
  function ToggleHorn(s: CommandState): (r: CommandState)
    ensures r.hornOn != s.hornOn
    ensures r.(hornOn := s.hornOn) == s
  {
    s.(hornOn := !s.hornOn)
  }

  /** The headlights button: `setHeadlightsOn(!headlightsOn)`. */
  function ToggleHeadlights(s: CommandState): (r: CommandState)
    ensures r.headlightsOn != s.headlightsOn
    ensures r.(headlightsOn := s.headlightsOn) == s
  {
    s.(headlightsOn := !s.headlightsOn)
  }

  /** The slider's `onChange`: `setSpeed(Number(value))`. The code does not
      clamp; the value lies in range because the slider cannot produce
      anything else. */
  function SetSpeed(s: CommandState, v: int): (r: CommandState)
    requires MinSpeed <= v <= MaxSpeed
    ensures r.speed == v
    ensures r.(speed := s.speed) == s
  {
    s.(speed := v)
  }

  /** The discrete intents the presentation layer raises. */
  datatype Intent =
    | PressDirection(d: Direction)
    | ReleaseDirection
    | PressStop
    | ClickHorn
    | ClickHeadlights
    | MoveSlider(v: int)

  /** What the UI can actually raise: the four arrow buttons press a
      direction other than Neutral (only Stop writes Neutral), and the slider
      stays within its bounds. */
  predicate Admissible(i: Intent) {
    && (i.PressDirection? ==> i.d != Neutral)
    && (i.MoveSlider? ==> MinSpeed <= i.v <= MaxSpeed)
  }

  predicate AllAdmissible(ins: seq<Intent>) {
    forall k :: 0 <= k < |ins| ==> Admissible(ins[k])
  }

  /** Dispatch of one intent to its handler. */
  function Apply(s: CommandState, i: Intent): (r: CommandState)
    requires Admissible(i)
    ensures Inv(s) ==> Inv(r)
    ensures r.battery == s.battery
  {
    match i
    case PressDirection(d) => HandleMouseDown(s, d)
    case ReleaseDirection => HandleMouseUp(s)
    case PressStop => StopCar(s)
    case ClickHorn => ToggleHorn(s)
    case ClickHeadlights => ToggleHeadlights(s)
    case MoveSlider(v) => SetSpeed(s, v)
  }

  /** The intents applied one after another, first to last. */
  function ApplyAll(s: CommandState, ins: seq<Intent>): (r: CommandState)
    requires AllAdmissible(ins)
    ensures Inv(s) ==> Inv(r)
    decreases |ins|
  {
    if |ins| == 0 then s else ApplyAll(Apply(s, ins[0]), ins[1..])
  }

  // ---------------------------------------------------------------------
  // A reference definition of the state after a sequence of intents,
  // read from the last intent backwards: each field holds the value of the
  // last write to it, and each boolean is flipped once per click.

  /** The direction written last (Stop writes Neutral), or `d0` if none. */
  function LastDirection(ins: seq<Intent>, d0: Direction): Direction
    decreases |ins|
  {
    if |ins| == 0 then d0
    else match ins[|ins| - 1]
      case PressDirection(d) => d
      case PressStop => Neutral
      case _ => LastDirection(ins[..|ins| - 1], d0)
  }

  /** The speed written last (Stop writes 0), or `v0` if none. */
  function LastSpeed(ins: seq<Intent>, v0: int): int
    decreases |ins|
  {
    if |ins| == 0 then v0
    else match ins[|ins| - 1]
      case MoveSlider(v) => v
      case PressStop => 0
      case _ => LastSpeed(ins[..|ins| - 1], v0)
  }

  /** How many intents in `ins` equal `i`. */
  function Count(ins: seq<Intent>, i: Intent): nat
    decreases |ins|
  {
    if |ins| == 0 then 0
    else Count(ins[..|ins| - 1], i) + (if ins[|ins| - 1] == i then 1 else 0)
  }

  predicate Odd(n: nat) {
    n % 2 == 1
  }

  lemma {:induction false} ApplyAllSnoc(s: CommandState, ins: seq<Intent>, i: Intent)
    requires AllAdmissible(ins) && Admissible(i)
    ensures AllAdmissible(ins + [i])
    ensures ApplyAll(s, ins + [i]) == Apply(ApplyAll(s, ins), i)
    decreases |ins|
  {
    var js := ins + [i];
    assert AllAdmissible(js) by {
      forall k | 0 <= k < |js| ensures Admissible(js[k]) {
        if k < |ins| { assert js[k] == ins[k]; } else { assert js[k] == i; }
      }
    }
    if |ins| == 0 {
      assert js == [i];
      assert js[1..] == [];
    } else {
      assert js[0] == ins[0];
      assert js[1..] == ins[1..] + [i];
      assert AllAdmissible(ins[1..]) by {
        forall k | 0 <= k < |ins[1..]| ensures Admissible(ins[1..][k]) {
          assert ins[1..][k] == ins[k + 1];
        }
      }
      ApplyAllSnoc(Apply(s, ins[0]), ins[1..], i);
    }
  }

  /** Last write wins per field, the toggles flip once per click, and
      `battery` is never written: the state after any sequence of intents
      is determined field by field by the reference definition above. */
  lemma {:induction false} ApplyAllLastWriteWins(s: CommandState, ins: seq<Intent>)
    requires AllAdmissible(ins)
    ensures ApplyAll(s, ins) == CommandState(
              LastDirection(ins, s.direction),
              LastSpeed(ins, s.speed),
              s.headlightsOn != Odd(Count(ins, ClickHeadlights)),
              s.hornOn != Odd(Count(ins, ClickHorn)),
              s.battery)
    decreases |ins|
  {
    if |ins| == 0 {
    } else {
      var init := ins[..|ins| - 1];
      var i := ins[|ins| - 1];
      assert ins == init + [i];
      assert AllAdmissible(init) by {
        forall k | 0 <= k < |init| ensures Admissible(init[k]) {
          assert init[k] == ins[k];
        }
      }
      assert Admissible(i);
      ApplyAllSnoc(s, init, i);
      ApplyAllLastWriteWins(s, init);
    }
  }

  /** Applying the same toggle twice restores the whole state. */
  lemma ToggleTwiceRestores(s: CommandState)
    ensures ToggleHorn(ToggleHorn(s)) == s
    ensures ToggleHeadlights(ToggleHeadlights(s)) == s
  {
  }

  /** Every direction is reachable from every state through the UI: the
      buttons pass the four moving values, and Stop yields Neutral. */
  lemma EveryDirectionReachable(s: CommandState, d: Direction)
    ensures exists i: Intent ::
              Admissible(i) && Apply(s, i).direction == d
  {
    if d == Neutral {
      assert Apply(s, PressStop).direction == Neutral;
    } else {
      assert Apply(s, PressDirection(d)).direction == d;
    }
  }
}

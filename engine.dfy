/**
 * `engine_t`: a two-state device whose temperature follows its state.
 * The C field is a `double`, but it is only ever assigned the integers
 * 15 and 75, so an `int` holds it exactly.
 */
module Engines {

  datatype State = On | Off

  const OffTemperature: int := 15
  const OnTemperature: int := 75

  /** The observable fields of an engine at one moment. */
  datatype Reading = Reading(state: State, temperature: int)

  /** What `engine_ctor` establishes. */
  const Initial: Reading := Reading(Off, OffTemperature)

  /** The engine's invariant: the temperature is the one its state dictates. */
  predicate Consistent(r: Reading) {
    && (r.state == On ==> r.temperature == OnTemperature)
    && (r.state == Off ==> r.temperature == OffTemperature)
  }

  /** The effect of `engine_turn_on` on the fields. */
  function AfterTurnOn(r: Reading): (r': Reading)
    ensures r'.state == On
    ensures r.state == On ==> r' == r
    ensures Consistent(r) ==> r' == Reading(On, OnTemperature)
  {
    if r.state == On then r else Reading(On, OnTemperature)
  }

  /** The effect of `engine_turn_off` on the fields. */
  function AfterTurnOff(r: Reading): (r': Reading)
    ensures r'.state == Off
    ensures r.state == Off ==> r' == r
    ensures Consistent(r) ==> r' == Initial
  {
    if r.state == Off then r else Reading(Off, OffTemperature)
  }

  lemma TransitionsIdempotent(r: Reading)
    ensures AfterTurnOn(AfterTurnOn(r)) == AfterTurnOn(r)
    ensures AfterTurnOff(AfterTurnOff(r)) == AfterTurnOff(r)
  {
  }

  /** Every engine reachable from `engine_ctor` satisfies the invariant. */
  lemma TransitionsKeepConsistent(r: Reading)
    requires Consistent(r)
    ensures Consistent(AfterTurnOn(r)) && Consistent(AfterTurnOff(r))
    ensures Consistent(Initial)
  {
  }

  /** In a consistent engine the temperature alone tells the state. */
  lemma StateFromTemperature(r: Reading)
    requires Consistent(r)
    ensures r.state == On <==> r.temperature == OnTemperature
    ensures r.state == Off <==> r.temperature == OffTemperature
  {
  }

  class Engine {
    var state: State
    var temperature: int

    function Snapshot(): Reading
      reads this
    {
      Reading(state, temperature)
    }

    ghost predicate Valid()
      reads this
    {
      Consistent(Snapshot())
    }

    /** `engine_new` followed by `engine_ctor`: OFF at 15. */
    constructor ()
      ensures Snapshot() == Initial && Valid()
    {
      state := Off;
      temperature := OffTemperature;
    }

    /** `engine_turn_on`: nothing happens when already ON. */
    method TurnOn()
      modifies this
      ensures Snapshot() == AfterTurnOn(old(Snapshot()))
      ensures old(Valid()) ==> Valid()
    {
      if state == On {
        return;
      }
      state := On;
      temperature := OnTemperature;
    }

    /** `engine_turn_off`: nothing happens when already OFF. */
    method TurnOff()
      modifies this
      ensures Snapshot() == AfterTurnOff(old(Snapshot()))
      ensures old(Valid()) ==> Valid()
    {
      if state == Off {
        return;
      }
      state := Off;
      temperature := OffTemperature;
    }

    /** `engine_get_temperature`: a read of the field. */
    function GetTemperature(): (t: int)
      reads this
      ensures Valid() ==> (t == OnTemperature <==> state == On)
      ensures Valid() ==> (t == OffTemperature <==> state == Off)
    {
      temperature
    }
  }

  /** The transitions spelled out: on, on again, off. */
  method EngineScenario() returns (temperatures: seq<int>, states: seq<State>)
    ensures temperatures == [15, 75, 75, 15]
    ensures states == [Off, On, On, Off]
  {
    var e := new Engine();
    temperatures, states := [e.GetTemperature()], [e.state];
    e.TurnOn();
    temperatures, states := temperatures + [e.GetTemperature()], states + [e.state];
    e.TurnOn();
    temperatures, states := temperatures + [e.GetTemperature()], states + [e.state];
    e.TurnOff();
    temperatures, states := temperatures + [e.GetTemperature()], states + [e.state];
  }
}

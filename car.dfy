/**
 * `car1_t`: composition. The car creates its own engine and reaches it
 * only through the engine's operations; nothing else holds the engine.
 */
module Composition {
  import opened Engines

  class Car {
    var engine: Engine

    ghost predicate Valid()
      reads this, engine
    {
      engine.Valid()
    }

    /** `car_new` followed by `car_ctor`: a fresh engine, OFF at 15. */
    constructor ()
      ensures fresh(engine)
      ensures engine.Snapshot() == Initial && Valid()
    {
      engine := new Engine();
    }

    /** `car_start`: `engine_turn_on` on the owned engine, nothing else. */
    method Start()
      modifies engine
      ensures engine == old(engine)
      ensures engine.Snapshot() == AfterTurnOn(old(engine.Snapshot()))
      ensures old(Valid()) ==> Valid()
    {
      engine.TurnOn();
    }

    /** `car_stop`: `engine_turn_off` on the owned engine, nothing else. */
    method Stop()
      modifies engine
      ensures engine == old(engine)
      ensures engine.Snapshot() == AfterTurnOff(old(engine.Snapshot()))
      ensures old(Valid()) ==> Valid()
    {
      engine.TurnOff();
    }

    /** `car_get_engine_temperature`: the engine's own reading, through its interface. */
    function GetEngineTemperature(): (t: int)
      reads this, engine
      ensures t == engine.Snapshot().temperature
      ensures Valid() ==> (t == OnTemperature <==> engine.state == On)
    {
      engine.GetTemperature()
    }
  }

  /** A car started twice and stopped reads 15, 75, 75, 15. */
  method CarScenario() returns (temperatures: seq<int>)
    ensures temperatures == [15, 75, 75, 15]
  {
    var car := new Car();
    temperatures := [car.GetEngineTemperature()];
    car.Start();
    temperatures := temperatures + [car.GetEngineTemperature()];
    car.Start();
    temperatures := temperatures + [car.GetEngineTemperature()];
    car.Stop();
    temperatures := temperatures + [car.GetEngineTemperature()];
  }
}

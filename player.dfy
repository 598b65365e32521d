/**
 * `player_t`: aggregation. The player may hold a reference to a gun that
 * someone else owns. `gun_trigger` is an external operation whose code is
 * not part of this model, so shooting returns which gun's trigger is
 * pulled; the `printf` and `exit(1)` of shooting without a gun become an
 * outcome carrying the message and the exit status.
 */
module Aggregation {

  /** A gun owned elsewhere; its state is not visible to the player. */
  class Gun {
    constructor () {}
  }

  datatype ShotOutcome =
    | Triggered(gun: Gun)                   // gun_trigger(gun) is called once
    | Exited(status: int, message: string)  // the message is printed, then exit(status)

  const NoGunMessage: string := "Player wants to shoot but he doesn't have a gun!"

  class Player {
    var name: string
    var gun: Gun?

    /** `player_new` followed by `player_ctor`: a copy of the name, no gun. */
    constructor (name: string)
      ensures this.name == name && gun == null
    {
      this.name := name;
      gun := null;
    }

    /** `player_pickup_gun`: any gun held before is simply replaced. */
    method PickupGun(g: Gun?)
      modifies this
      ensures gun == g && name == old(name)
    {
      gun := g;
    }

    /** `player_shoot`. */
    method Shoot() returns (outcome: ShotOutcome)
      ensures outcome.Triggered? <==> gun != null
      ensures gun != null ==> outcome.gun == gun
      ensures gun == null ==> outcome == Exited(1, NoGunMessage)
    {
      if gun != null {
        outcome := Triggered(gun);
      } else {
        outcome := Exited(1, NoGunMessage);
      }
    }

    /** `player_drop_gun`: the reference is cleared; the gun itself is not touched. */
    method DropGun()
      modifies this
      ensures gun == null && name == old(name)
    {
      gun := null;
    }
  }

  /**
   * Pick up a gun and shoot, then drop it and shoot again. The second shot
   * exits the process, so it is the last call. The gun is the same object
   * throughout, and dropping it leaves it to its owner.
   */
  method AggregationScenario() returns (first: ShotOutcome, second: ShotOutcome, g: Gun)
    ensures first == Triggered(g)
    ensures second == Exited(1, NoGunMessage)
  {
    g := new Gun();
    var p := new Player("player");
    p.PickupGun(g);
    first := p.Shoot();
    p.DropGun();
    second := p.Shoot();
  }
}

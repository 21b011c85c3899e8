/** The power supply a computer switches on. Its source file is not part of
    this model; the one-way on switch is what the tests observe. */
module Power {

  class PowerSupply {
    var isOn: bool

    /** A new power supply is off. */
    constructor ()
      ensures !isOn
    {
      isOn := false;
    }

    /** Switches the supply on; switching it on again changes nothing. */
    method TurnOn()
      modifies this
      ensures isOn
    {
      isOn := true;
    }
  }
}

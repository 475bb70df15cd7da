// Physical dimensions and unit values, over exact numbers.
module UnitValues {

  // Exponents of length, time, mass, charge and temperature.
  datatype Dimension = Dimension(length: real, time: real, mass: real, charge: real, temperature: real)
  {
    function Times(other: Dimension): Dimension {
      Dimension(length + other.length, time + other.time, mass + other.mass,
                charge + other.charge, temperature + other.temperature)
    }

    function Over(other: Dimension): Dimension {
      Dimension(length - other.length, time - other.time, mass - other.mass,
                charge - other.charge, temperature - other.temperature)
    }

    function Raise(p: real): Dimension {
      Dimension(length * p, time * p, mass * p, charge * p, temperature * p)
    }
  }

  const DIM_NONE := Dimension(0.0, 0.0, 0.0, 0.0, 0.0)

  datatype UnitValue = UnitValue(factor: real, dim: Dimension)
}

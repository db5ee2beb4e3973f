/** How many elements a shape has. */
module Shapes {

  function Size(shape: seq<nat>): nat {
    if shape == [] then 1 else shape[0] * Size(shape[1..])
  }
}

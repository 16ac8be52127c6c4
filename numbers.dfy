/** Arithmetic on counts shared by the batch schedule and the ranking. */
module Numbers {

  function Min(a: nat, b: nat): nat
  {
    if a <= b then a else b
  }
}

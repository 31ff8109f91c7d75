/**
 Small arithmetic that several models share.
 */
module Numbers {

  function Min(a: nat, b: nat): nat { if a <= b then a else b }

  function Max(a: nat, b: nat): nat { if a >= b then a else b }

  function AtLeastOne(n: int): nat { if n < 1 then 1 else n }
}

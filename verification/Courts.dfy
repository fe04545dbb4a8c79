/** The courts of a floor, numbered from one, each with the slot from which it is free. */
module Courts {

  function Max(a: int, b: int): int {
    if a >= b then a else b
  }

  predicate ForCourts<V>(free: map<nat, V>, courts: nat) {
    forall c | 1 <= c <= courts :: c in free
  }

  /** All courts free from the first slot on. */
  function Opening(courts: nat): (free: map<nat, nat>)
    ensures ForCourts(free, courts) && forall c :: c in free ==> free[c] == 0
  {
    if courts == 0 then map[] else Opening(courts - 1)[courts := 0]
  }
}

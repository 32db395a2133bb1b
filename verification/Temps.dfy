/** Names of temporary files. */
module Temps {

  /** os.CreateTemp: a name nobody has taken. */
  method CreateTemp(taken: set<nat>) returns (temp: nat)
    ensures temp !in taken
  {
    temp := 0;
    var left := taken;
    while left != {}
      invariant left <= taken && forall t :: t in taken && t !in left ==> t < temp
    {
      var t :| t in left;
      if t >= temp {
        temp := t + 1;
      }
      left := left - {t};
    }
  }
}

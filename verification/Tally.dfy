/** Named counts and what they add up to. */
module Tally {
  datatype Count = Count(name: string, count: nat)

  function Total(counts: seq<Count>): nat {
    if counts == [] then 0 else counts[0].count + Total(counts[1..])
  }
}
